/** What both directions of an ATA transfer share. */
module Ata {

  type Sector = seq<nat>

  const MAX_CHUNK: nat := 255         // ATA_MAX_SECTORS_PER_CMD
  const LBA_LIMIT: nat := 0x1000_0000 // 28-bit block addresses


  /** The registers hold a 28-bit address and a chunk's count without loss. */
  lemma Masked(lba: nat, chunk: nat)
    ensures lba < LBA_LIMIT ==> lba % LBA_LIMIT == lba
    ensures chunk <= MAX_CHUNK ==> chunk % 256 == chunk
  {
  }
}
