/** What payloads and blocks are made of. */
module Memory {
  type Byte = bv8
}
