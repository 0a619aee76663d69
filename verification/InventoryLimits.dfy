/** The limits of runtime inventory observations (internal/shared/runtimeinventory/model.go:16-22). */
module InventoryLimits {
  const SCHEMA_VERSION := 1
  const MAX_RESOURCES := 100_000
  const MAX_RESOURCES_PER_CHUNK := 500
  const MAX_CHUNKS := 10_000
  const MAX_SNAPSHOT_BYTES := 64 * 1024 * 1024
  const DEFAULT_CHUNK_BYTES := 48 * 1024
  const MAX_CHUNK_BYTES := 512 * 1024
}
