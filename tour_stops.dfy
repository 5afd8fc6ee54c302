/**
 * The static list of tour stops (`tourStops` in src/tourData.js and src/tourData.ts)
 * and the two list operations the scenes apply to it: `find` by id and the
 * `filter` that leaves out the current stop.
 */
module TourStops {
  import opened Options
  import opened Vectors

  /** One stop: the fields the transition logic and the projector read. */
  datatype Stop = Stop(id: nat, name: string, position: Vec3, hdriPath: string, meshPath: string)

  /**
   * Every stop's id is its index in the list. Both scenes look stops up by
   * `tourStops[id]` and compare ids with indices, so they depend on this.
   */
  ghost predicate IdsAreIndices(stops: seq<Stop>) {
    forall i :: 0 <= i < |stops| ==> stops[i].id == i
  }

  /** `stops[i]` has id `offset + i`: the shape of a suffix of an id == index list. */
  ghost predicate IdsFrom(stops: seq<Stop>, offset: nat) {
    forall i :: 0 <= i < |stops| ==> stops[i].id == offset + i
  }

  /** `tourStops.find((s) => s.id === id)`: the first stop with that id, if any. */
  function FindStop(stops: seq<Stop>, id: int): (r: Option<Stop>)
    ensures r.Some? ==> r.value in stops && r.value.id == id
    ensures r.None? <==> forall i :: 0 <= i < |stops| ==> stops[i].id != id
    ensures r.Some? ==>
      exists i :: 0 <= i < |stops| && stops[i] == r.value && forall j :: 0 <= j < i ==> stops[j].id != id
  {
    if stops == [] then None
    else if stops[0].id == id then Some(stops[0])
    else
      var r := FindStop(stops[1..], id);
      assert forall i :: 1 <= i < |stops| ==> stops[i] == stops[1..][i - 1];
      r
  }

  lemma {:induction false} FindStopFrom(stops: seq<Stop>, offset: nat, id: int)
    requires IdsFrom(stops, offset)
    ensures FindStop(stops, id) == if offset <= id < offset + |stops| then Some(stops[id - offset]) else None
  {
    if stops != [] && stops[0].id != id {
      assert IdsFrom(stops[1..], offset + 1);
      FindStopFrom(stops[1..], offset + 1, id);
    }
  }

  /** With ids equal to indices, finding id `k` is indexing at `k`, and unknown ids are not found. */
  lemma FindStopByIndex(stops: seq<Stop>, id: int)
    requires IdsAreIndices(stops)
    ensures FindStop(stops, id) == if 0 <= id < |stops| then Some(stops[id]) else None
  {
    assert IdsFrom(stops, 0);
    FindStopFrom(stops, 0, id);
  }

  /** `tourStops.filter((s) => s.id !== currentId)`. */
  function DisplayedStops(stops: seq<Stop>, currentId: nat): (r: seq<Stop>)
    ensures |r| <= |stops|
    ensures forall i :: 0 <= i < |r| ==> r[i].id != currentId
  {
    if stops == [] then []
    else if stops[0].id != currentId then [stops[0]] + DisplayedStops(stops[1..], currentId)
    else DisplayedStops(stops[1..], currentId)
  }

  /** A stop is displayed exactly when it is in the list and is not the current one. */
  lemma {:induction false} DisplayedStopsMembers(stops: seq<Stop>, currentId: nat, s: Stop)
    ensures s in DisplayedStops(stops, currentId) <==> s in stops && s.id != currentId
    decreases |stops|
  {
    if stops != [] {
      DisplayedStopsMembers(stops[1..], currentId, s);
      assert stops == [stops[0]] + stops[1..];
    }
  }

  /** The filter distributes over concatenation. */
  lemma {:induction false} DisplayedStopsConcat(a: seq<Stop>, b: seq<Stop>, currentId: nat)
    ensures DisplayedStops(a + b, currentId) == DisplayedStops(a, currentId) + DisplayedStops(b, currentId)
    decreases |a|
  {
    if a == [] {
      assert a + b == b;
    } else {
      assert (a + b)[0] == a[0] && (a + b)[1..] == a[1..] + b;
      DisplayedStopsConcat(a[1..], b, currentId);
    }
  }

  /** A list without the current id passes the filter unchanged. */
  lemma {:induction false} DisplayedStopsKeepsAll(stops: seq<Stop>, currentId: nat)
    requires forall i :: 0 <= i < |stops| ==> stops[i].id != currentId
    ensures DisplayedStops(stops, currentId) == stops
    decreases |stops|
  {
    if stops != [] {
      DisplayedStopsKeepsAll(stops[1..], currentId);
      assert [stops[0]] + stops[1..] == stops;
    }
  }

  /**
   * With ids equal to indices, the displayed stops are exactly the list without the
   * current stop, in the original order.
   */
  lemma DisplayedStopsRemovesCurrent(stops: seq<Stop>, current: nat)
    requires IdsAreIndices(stops) && current < |stops|
    ensures DisplayedStops(stops, stops[current].id) == stops[..current] + stops[current + 1..]
  {
    var before, at, after := stops[..current], [stops[current]], stops[current + 1..];
    assert stops == before + (at + after);
    DisplayedStopsConcat(before, at + after, current);
    DisplayedStopsConcat(at, after, current);
    assert DisplayedStops(at, current) == [] by {
      assert at[1..] == [];
    }
    IdsAvoid(stops, 0, current, current);
    DisplayedStopsKeepsAll(before, current);
    IdsAvoid(stops, current + 1, |stops|, current);
    DisplayedStopsKeepsAll(after, current);
  }

  lemma IdsAvoid(stops: seq<Stop>, lo: nat, hi: nat, c: nat)
    requires IdsAreIndices(stops) && lo <= hi <= |stops| && (c < lo || hi <= c)
    ensures forall i :: 0 <= i < |stops[lo..hi]| ==> stops[lo..hi][i].id != c
  {
    forall i | 0 <= i < |stops[lo..hi]|
      ensures stops[lo..hi][i].id != c
    {
      assert stops[lo..hi][i] == stops[lo + i];
    }
  }

  /** What a scene renders around the panorama: whether orbit input is on, and the hotspots offered. */
  datatype Overlay = Overlay(orbitEnabled: bool, hotspots: seq<Stop>)

  /**
   * `enabled={!isTransitioning}` on the orbit controls and
   * `{!isTransitioning && displayedStops.map(...)}` for the hotspots.
   */
  function OverlayFor(stops: seq<Stop>, current: nat, isTransitioning: bool): (o: Overlay)
    requires IdsAreIndices(stops) && current < |stops|
    ensures o.orbitEnabled <==> !isTransitioning
    ensures isTransitioning ==> o.hotspots == []
    ensures !isTransitioning ==> o.hotspots == stops[..current] + stops[current + 1..]
    ensures forall i :: 0 <= i < |o.hotspots| ==> o.hotspots[i].id != current && o.hotspots[i].id < |stops|
  {
    DisplayedStopsRemovesCurrent(stops, current);
    var displayed := DisplayedStops(stops, stops[current].id);
    Overlay(!isTransitioning, if isTransitioning then [] else displayed)
  }
}
