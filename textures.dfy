/** Loaded panorama textures: objects whose `mapping` and `colorSpace` the components set in place. */
module Textures {

  datatype Mapping = UVMapping | EquirectangularReflectionMapping

  datatype ColorSpace = LinearSRGBColorSpace | SRGBColorSpace

  /** A texture as the HDR loader hands it over: identified by its file path, linear colour, UV mapping. */
  class HdrTexture {
    const path: string
    var mapping: Mapping
    var colorSpace: ColorSpace

    constructor (path: string)
      ensures this.path == path && mapping == UVMapping && colorSpace == LinearSRGBColorSpace
    {
      this.path := path;
      mapping := UVMapping;
      colorSpace := LinearSRGBColorSpace;
    }
  }
}
