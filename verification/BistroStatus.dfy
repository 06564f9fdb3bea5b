/** How relocating code can end. */
module BistroStatus {
  datatype Status = Ok | Unsupported | BufferTooSmall | NoMemory
}
