/** The DXGI formats the renderer uses for render targets, views and depth buffers. */
module DxgiFormats {
  datatype Format =
    | RGBA32Float      // DXGI_FORMAT_R32G32B32A32_FLOAT
    | R32Uint          // DXGI_FORMAT_R32_UINT
    | RGBA8Unorm       // DXGI_FORMAT_R8G8B8A8_UNORM, the swap chain's format
    | D24UnormS8Uint   // DXGI_FORMAT_D24_UNORM_S8_UINT
    | UnknownFormat    // DXGI_FORMAT_UNKNOWN
}
