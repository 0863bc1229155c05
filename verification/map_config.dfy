/** The per-map settings a record store reads once, at construction:
    backup counts and the write delay of the map store, with Java's
    32-bit `int` arithmetic written out. */
module MapConfigs {
  import opened Wrappers

  const TwoTo31: int := 0x8000_0000
  const TwoTo32: int := 0x1_0000_0000

  /** Java `int`. */
  type int32 = x: int | -TwoTo31 <= x < TwoTo31

  /** Java `long`. */
  predicate InLong(x: int) {
    -0x8000_0000_0000_0000 <= x < 0x8000_0000_0000_0000
  }

  /** The two's-complement wrap-around of a Java `int` operation whose exact
      result is `x`. */
  function WrapInt32(x: int): (r: int32)
    ensures (r - x) % TwoTo32 == 0
    ensures -TwoTo31 <= x < TwoTo31 ==> r == x
  {
    (x + TwoTo31) % TwoTo32 - TwoTo31
  }

  datatype MapStoreConfig = MapStoreConfig(writeDelaySeconds: int32)

  /** Only the settings the record store consults. */
  datatype MapConfig = MapConfig(
    backupCount: int32,
    asyncBackupCount: int32,
    mapStoreConfig: Option<MapStoreConfig>)

  /** The write delay in milliseconds as the constructor computes it:
      `getWriteDelaySeconds() * 1000` is an `int` product, so it wraps before
      it is widened to `long`. */
  function WriteDelayMillisAsWritten(mc: MapConfig): (r: int32)
    ensures mc.mapStoreConfig.None? ==> r == 0
    ensures mc.mapStoreConfig.Some? ==>
              (r - mc.mapStoreConfig.value.writeDelaySeconds * 1000) % TwoTo32 == 0
  {
    match mc.mapStoreConfig
    case None => 0
    case Some(msc) => WrapInt32(msc.writeDelaySeconds * 1000)
  }

  /** A delay of 536870912 seconds (2^29) makes the `int` product a multiple
      of 2^32: the as-written delay is 0, which switches the store to
      write-through although a (very long) write-behind delay was set. */
  lemma WriteDelayAsWrittenVanishes()
    ensures var mc := MapConfig(1, 0, Some(MapStoreConfig(0x2000_0000)));
            WriteDelayMillisAsWritten(mc) == 0 && WriteDelayMillis(mc) != 0
  {
    var mc := MapConfig(1, 0, Some(MapStoreConfig(0x2000_0000)));
    assert 0x2000_0000 * 1000 == 125 * TwoTo32;
  }

  /** The write delay with the product taken in `long`, as the conversion
      from seconds to milliseconds intends. It is exact, it always fits a
      `long`, and it is zero exactly when no map store is configured or the
      configured delay is zero. */
  function WriteDelayMillis(mc: MapConfig): (r: int)
    ensures InLong(r)
    ensures r == 0 <==> mc.mapStoreConfig.None? || mc.mapStoreConfig.value.writeDelaySeconds == 0
    ensures r > 0 <==> mc.mapStoreConfig.Some? && mc.mapStoreConfig.value.writeDelaySeconds > 0
  {
    match mc.mapStoreConfig
    case None => 0
    case Some(msc) => msc.writeDelaySeconds * 1000
  }

  /** For every delay below 2147484 seconds (about 24.8 days) the as-written
      and the corrected derivations agree. */
  lemma WriteDelayAgreesInRange(mc: MapConfig)
    requires mc.mapStoreConfig.Some? ==> -2147483 <= mc.mapStoreConfig.value.writeDelaySeconds <= 2147483
    ensures WriteDelayMillisAsWritten(mc) == WriteDelayMillis(mc)
  {
  }
}
