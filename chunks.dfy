/** The chunk records the bundler hands to the plugin on every pass. */
module Chunks {

  /**
    A chunk identifier. The bundler's ids are used as object keys, so ids that
    print the same collide; the model takes them to be integers.
  */
  type ChunkId = int

  /**
    One entry of a chunk's `parents` list: either a chunk object given inline,
    or a bare identifier that has to be looked up among the chunks being sorted.
  */
  datatype ParentRef = Inline(chunk: Chunk) | ById(id: ChunkId)

  /** One emitted group of build outputs. */
  datatype Chunk = Chunk(
    id: ChunkId,
    name: string,
    hash: string,
    files: seq<string>,
    parents: seq<ParentRef>)
}
