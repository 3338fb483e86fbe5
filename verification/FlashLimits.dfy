/** Sizes and addresses that flashing over the bus and through the bootloader share. */
module FlashLimits {
  const FLASH_WRITE_CHUNK_SIZE: nat := 4096
  const MAX_FLASH_FILE_SIZE: nat := 400 * 1024
  const FLASHING_START_ADDRESS: nat := 16
}
