/** The constants of src/config.js that the measurement core reads. */
module Config {

  /** Number of retries after the first attempt of one measurement. */
  const MaxRetries: nat := 2

  /** Samples per cache regime per site. */
  const MeasurementsPerCacheType: nat := 2

  /** The debugging port requested from the launcher. */
  const ChromePort: int := 9222

  /** The storage categories Lighthouse is asked to clear in the cold regime. */
  const StorageTypes: seq<string> := [
    "appcache", "cookies", "fileSystems", "indexedDB",
    "localStorage", "shader_cache", "websql",
    "service_workers", "cache_storage"
  ]

  /** Lighthouse audit ids of the five tracked metrics. */
  const FcpAudit: string := "first-contentful-paint"
  const LcpAudit: string := "largest-contentful-paint"
  const TbtAudit: string := "total-blocking-time"
  const ClsAudit: string := "cumulative-layout-shift"
  const SiAudit: string := "speed-index"
}
