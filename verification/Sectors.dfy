/** Units of the block layer (block.h, block_int.h and block-migration.c). */
module Sectors {

  /** BDRV_SECTOR_BITS and BDRV_SECTOR_SIZE. */
  const SECTOR_BITS: nat := 9
  const SECTOR_SIZE: nat := 512

  /** BDRV_SECTORS_PER_DIRTY_CHUNK. */
  const CHUNK: nat := 2048

  /** BLOCK_SIZE: the bytes of a chunk. */
  const BLOCK_SIZE: nat := 1048576
}
