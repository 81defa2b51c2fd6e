/** The settings of a broker, saved to a file and loaded again. */
module BrokerConfigs {
  import opened Slices
  import opened Strings
  import opened Values
  import opened Wrappers
  import opened ConfigFile

  type uint16 = n: nat | n < TWO_16
  type uint32 = n: nat | n < TWO_32
  type uint64 = n: nat | n < TWO_64

  datatype Batch = Batch(batchPublishEnabled: bool, batchPushEnabled: bool, maxBatchSize: uint32)

  datatype Heartbeat = Heartbeat(
    heartbeatEnabled: bool,
    heartbeatIntervalMs: uint32,
    heartbeatTimeoutMs: uint32,
    heartbeatCheckIntervalMs: uint32)

  datatype Limits = Limits(
    rateLimitEnabled: bool,
    globalPublishRate: uint32,
    connPublishRate: uint32,
    rateLimitBurst: uint32)

  datatype Buffering = Buffering(maxWriteBufferSize: uint64)

  datatype Expiry = Expiry(ttlEnabled: bool, defaultTtlMs: uint32, expirationCheckIntervalMs: uint32)

  datatype Packing = Packing(compressionEnabled: bool, compressionThresholdBytes: uint32, zeroCopyEnabled: bool)

  datatype Dedup = Dedup(dedupEnabled: bool, dedupWindowSize: uint64)

  datatype Storage = Storage(
    defaultRingBufferSize: uint64,
    maxRetryCount: uint32,
    pendingTimeoutMs: uint32,
    retryIntervalMs: uint32)

  datatype Config = Config(
    port: uint16,
    batch: Batch,
    heartbeat: Heartbeat,
    limits: Limits,
    buffering: Buffering,
    expiry: Expiry,
    packing: Packing,
    dedup: Dedup,
    storage: Storage)

  /** The fields in the order in which they are saved. */
  datatype Field =
    | Port | BatchPublishEnabled | BatchPushEnabled | MaxBatchSize | HeartbeatEnabled | HeartbeatIntervalMs
    | HeartbeatTimeoutMs | HeartbeatCheckIntervalMs | RateLimitEnabled | GlobalPublishRate | ConnPublishRate
    | RateLimitBurst | MaxWriteBufferSize | TtlEnabled | DefaultTtlMs | ExpirationCheckIntervalMs
    | CompressionEnabled | CompressionThresholdBytes | ZeroCopyEnabled | DedupEnabled | DedupWindowSize
    | DefaultRingBufferSize | MaxRetryCount | PendingTimeoutMs | RetryIntervalMs

  function BatchKey(f: Field): string {
    match f
    case BatchPublishEnabled => "batch_publish_enabled"
    case BatchPushEnabled => "batch_push_enabled"
    case _ => "max_batch_size"
  }

  function HeartbeatKey(f: Field): string {
    match f
    case HeartbeatEnabled => "heartbeat_enabled"
    case HeartbeatIntervalMs => "heartbeat_interval_ms"
    case HeartbeatTimeoutMs => "heartbeat_timeout_ms"
    case _ => "heartbeat_check_interval_ms"
  }

  function LimitsKey(f: Field): string {
    match f
    case RateLimitEnabled => "rate_limit_enabled"
    case GlobalPublishRate => "global_publish_rate"
    case ConnPublishRate => "conn_publish_rate"
    case _ => "rate_limit_burst"
  }

  function BufferingKey(): string {
    "max_write_buffer_size"
  }

  function ExpiryKey(f: Field): string {
    match f
    case TtlEnabled => "ttl_enabled"
    case DefaultTtlMs => "default_ttl_ms"
    case _ => "expiration_check_interval_ms"
  }

  function PackingKey(f: Field): string {
    match f
    case CompressionEnabled => "compression_enabled"
    case CompressionThresholdBytes => "compression_threshold_bytes"
    case _ => "zero_copy_enabled"
  }

  function DedupKey(f: Field): string {
    match f
    case DedupEnabled => "dedup_enabled"
    case _ => "dedup_window_size"
  }

  function StorageKey(f: Field): string {
    match f
    case DefaultRingBufferSize => "default_ring_buffer_size"
    case MaxRetryCount => "max_retry_count"
    case PendingTimeoutMs => "pending_timeout_ms"
    case _ => "retry_interval_ms"
  }

  function Key(f: Field): string {
    match f
    case Port => "port"
    case BatchPublishEnabled | BatchPushEnabled | MaxBatchSize => BatchKey(f)
    case HeartbeatEnabled | HeartbeatIntervalMs | HeartbeatTimeoutMs | HeartbeatCheckIntervalMs => HeartbeatKey(f)
    case RateLimitEnabled | GlobalPublishRate | ConnPublishRate | RateLimitBurst => LimitsKey(f)
    case MaxWriteBufferSize => BufferingKey()
    case TtlEnabled | DefaultTtlMs | ExpirationCheckIntervalMs => ExpiryKey(f)
    case CompressionEnabled | CompressionThresholdBytes | ZeroCopyEnabled => PackingKey(f)
    case DedupEnabled | DedupWindowSize => DedupKey(f)
    case DefaultRingBufferSize | MaxRetryCount | PendingTimeoutMs | RetryIntervalMs => StorageKey(f)
  }

  const FIELDS := 25

  function FieldAt(i: nat): Field
    requires i < FIELDS
  {
    match i
    case 0 => Port
    case 1 => BatchPublishEnabled
    case 2 => BatchPushEnabled
    case 3 => MaxBatchSize
    case 4 => HeartbeatEnabled
    case 5 => HeartbeatIntervalMs
    case 6 => HeartbeatTimeoutMs
    case 7 => HeartbeatCheckIntervalMs
    case 8 => RateLimitEnabled
    case 9 => GlobalPublishRate
    case 10 => ConnPublishRate
    case 11 => RateLimitBurst
    case 12 => MaxWriteBufferSize
    case 13 => TtlEnabled
    case 14 => DefaultTtlMs
    case 15 => ExpirationCheckIntervalMs
    case 16 => CompressionEnabled
    case 17 => CompressionThresholdBytes
    case 18 => ZeroCopyEnabled
    case 19 => DedupEnabled
    case 20 => DedupWindowSize
    case 21 => DefaultRingBufferSize
    case 22 => MaxRetryCount
    case 23 => PendingTimeoutMs
    case _ => RetryIntervalMs
  }

  function IndexOf(f: Field): (i: nat)
    ensures i < FIELDS && FieldAt(i) == f
  {
    match f
    case Port => 0
    case BatchPublishEnabled => 1
    case BatchPushEnabled => 2
    case MaxBatchSize => 3
    case HeartbeatEnabled => 4
    case HeartbeatIntervalMs => 5
    case HeartbeatTimeoutMs => 6
    case HeartbeatCheckIntervalMs => 7
    case RateLimitEnabled => 8
    case GlobalPublishRate => 9
    case ConnPublishRate => 10
    case RateLimitBurst => 11
    case MaxWriteBufferSize => 12
    case TtlEnabled => 13
    case DefaultTtlMs => 14
    case ExpirationCheckIntervalMs => 15
    case CompressionEnabled => 16
    case CompressionThresholdBytes => 17
    case ZeroCopyEnabled => 18
    case DedupEnabled => 19
    case DedupWindowSize => 20
    case DefaultRingBufferSize => 21
    case MaxRetryCount => 22
    case PendingTimeoutMs => 23
    case RetryIntervalMs => 24
  }

  lemma FieldAtOnce(i: nat)
    requires i < FIELDS
    ensures IndexOf(FieldAt(i)) == i
  {
  }

  function Text(c: Config, f: Field): string {
    match f
    case Port => Decimal(c.port)
    case BatchPublishEnabled => BoolText(c.batch.batchPublishEnabled)
    case BatchPushEnabled => BoolText(c.batch.batchPushEnabled)
    case MaxBatchSize => Decimal(c.batch.maxBatchSize)
    case HeartbeatEnabled => BoolText(c.heartbeat.heartbeatEnabled)
    case HeartbeatIntervalMs => Decimal(c.heartbeat.heartbeatIntervalMs)
    case HeartbeatTimeoutMs => Decimal(c.heartbeat.heartbeatTimeoutMs)
    case HeartbeatCheckIntervalMs => Decimal(c.heartbeat.heartbeatCheckIntervalMs)
    case RateLimitEnabled => BoolText(c.limits.rateLimitEnabled)
    case GlobalPublishRate => Decimal(c.limits.globalPublishRate)
    case ConnPublishRate => Decimal(c.limits.connPublishRate)
    case RateLimitBurst => Decimal(c.limits.rateLimitBurst)
    case MaxWriteBufferSize => Decimal(c.buffering.maxWriteBufferSize)
    case TtlEnabled => BoolText(c.expiry.ttlEnabled)
    case DefaultTtlMs => Decimal(c.expiry.defaultTtlMs)
    case ExpirationCheckIntervalMs => Decimal(c.expiry.expirationCheckIntervalMs)
    case CompressionEnabled => BoolText(c.packing.compressionEnabled)
    case CompressionThresholdBytes => Decimal(c.packing.compressionThresholdBytes)
    case ZeroCopyEnabled => BoolText(c.packing.zeroCopyEnabled)
    case DedupEnabled => BoolText(c.dedup.dedupEnabled)
    case DedupWindowSize => Decimal(c.dedup.dedupWindowSize)
    case DefaultRingBufferSize => Decimal(c.storage.defaultRingBufferSize)
    case MaxRetryCount => Decimal(c.storage.maxRetryCount)
    case PendingTimeoutMs => Decimal(c.storage.pendingTimeoutMs)
    case RetryIntervalMs => Decimal(c.storage.retryIntervalMs)
  }

  function Entries(c: Config): seq<Entry> {
    seq(FIELDS, i requires 0 <= i < FIELDS => Entry(Key(FieldAt(i)), Text(c, FieldAt(i))))
  }

  function ReadBool(json: string, f: Field, before: bool): bool {
    match ParseBool(ExtractValue(json, Key(f)))
    case None => before
    case Some(b) => b
  }

  /** The number behind the key, truncated to the width of the field; without one the field stays as it is. */
  function ReadUnsigned(json: string, f: Field, before: nat, modulus: nat): (n: nat)
    requires before < modulus
    ensures n < modulus
  {
    var value := ExtractValue(json, Key(f));
    if value == "" then before
    else
      match ParseUnsigned(value, modulus)
      case None => before
      case Some(n) => n
  }

  function LoadedBatch(json: string, before: Batch): Batch {
    Batch(
      ReadBool(json, BatchPublishEnabled, before.batchPublishEnabled),
      ReadBool(json, BatchPushEnabled, before.batchPushEnabled),
      ReadUnsigned(json, MaxBatchSize, before.maxBatchSize, TWO_32))
  }

  function LoadedHeartbeat(json: string, before: Heartbeat): Heartbeat {
    Heartbeat(
      ReadBool(json, HeartbeatEnabled, before.heartbeatEnabled),
      ReadUnsigned(json, HeartbeatIntervalMs, before.heartbeatIntervalMs, TWO_32),
      ReadUnsigned(json, HeartbeatTimeoutMs, before.heartbeatTimeoutMs, TWO_32),
      ReadUnsigned(json, HeartbeatCheckIntervalMs, before.heartbeatCheckIntervalMs, TWO_32))
  }

  function LoadedLimits(json: string, before: Limits): Limits {
    Limits(
      ReadBool(json, RateLimitEnabled, before.rateLimitEnabled),
      ReadUnsigned(json, GlobalPublishRate, before.globalPublishRate, TWO_32),
      ReadUnsigned(json, ConnPublishRate, before.connPublishRate, TWO_32),
      ReadUnsigned(json, RateLimitBurst, before.rateLimitBurst, TWO_32))
  }

  function LoadedBuffering(json: string, before: Buffering): Buffering {
    Buffering(
      ReadUnsigned(json, MaxWriteBufferSize, before.maxWriteBufferSize, TWO_64))
  }

  function LoadedExpiry(json: string, before: Expiry): Expiry {
    Expiry(
      ReadBool(json, TtlEnabled, before.ttlEnabled),
      ReadUnsigned(json, DefaultTtlMs, before.defaultTtlMs, TWO_32),
      ReadUnsigned(json, ExpirationCheckIntervalMs, before.expirationCheckIntervalMs, TWO_32))
  }

  function LoadedPacking(json: string, before: Packing): Packing {
    Packing(
      ReadBool(json, CompressionEnabled, before.compressionEnabled),
      ReadUnsigned(json, CompressionThresholdBytes, before.compressionThresholdBytes, TWO_32),
      ReadBool(json, ZeroCopyEnabled, before.zeroCopyEnabled))
  }

  function LoadedDedup(json: string, before: Dedup): Dedup {
    Dedup(
      ReadBool(json, DedupEnabled, before.dedupEnabled),
      ReadUnsigned(json, DedupWindowSize, before.dedupWindowSize, TWO_64))
  }

  function LoadedStorage(json: string, before: Storage): Storage {
    Storage(
      ReadUnsigned(json, DefaultRingBufferSize, before.defaultRingBufferSize, TWO_64),
      ReadUnsigned(json, MaxRetryCount, before.maxRetryCount, TWO_32),
      ReadUnsigned(json, PendingTimeoutMs, before.pendingTimeoutMs, TWO_32),
      ReadUnsigned(json, RetryIntervalMs, before.retryIntervalMs, TWO_32))
  }

  /** The settings `before`, with those that the text gives taken over. */
  function Loaded(json: string, before: Config): Config {
    Config(
      ReadUnsigned(json, Port, before.port, TWO_16),
      LoadedBatch(json, before.batch),
      LoadedHeartbeat(json, before.heartbeat),
      LoadedLimits(json, before.limits),
      LoadedBuffering(json, before.buffering),
      LoadedExpiry(json, before.expiry),
      LoadedPacking(json, before.packing),
      LoadedDedup(json, before.dedup),
      LoadedStorage(json, before.storage))
  }

  /** The length of a key and, among keys as long, its first character tell which one it is. */
  function Rank(length: nat, first: char): nat {
    if length == 4 then 0
    else if length == 11 then 13
    else if length == 13 then 19
    else if length == 14 then (if first == 'm' then 3 else 14)
    else if length == 15 then 22
    else if length == 16 then 11
    else if length == 17 then (if first == 'h' then 4 else if first == 'c' then 10 else if first == 'z' then 18 else if first == 'd' then 20 else 24)
    else if length == 18 then (if first == 'b' then 2 else if first == 'r' then 8 else 23)
    else if length == 19 then (if first == 'g' then 9 else 16)
    else if length == 20 then 6
    else if length == 21 then (if first == 'b' then 1 else if first == 'h' then 5 else 12)
    else if length == 24 then 21
    else if length == 27 then (if first == 'h' then 7 else 17)
    else 15
  }

  lemma BatchKeyFacts(f: Field)
    requires f.BatchPublishEnabled? || f.BatchPushEnabled? || f.MaxBatchSize?
    ensures Plain(Key(f)) && Rank(|Key(f)|, Key(f)[0]) == IndexOf(f)
  {
    hide HeartbeatKey, LimitsKey, BufferingKey, ExpiryKey, PackingKey, DedupKey, StorageKey;
  }

  lemma HeartbeatKeyFacts(f: Field)
    requires f.HeartbeatEnabled? || f.HeartbeatIntervalMs? || f.HeartbeatTimeoutMs? || f.HeartbeatCheckIntervalMs?
    ensures Plain(Key(f)) && Rank(|Key(f)|, Key(f)[0]) == IndexOf(f)
  {
    hide BatchKey, LimitsKey, BufferingKey, ExpiryKey, PackingKey, DedupKey, StorageKey;
  }

  lemma LimitsKeyFacts(f: Field)
    requires f.RateLimitEnabled? || f.GlobalPublishRate? || f.ConnPublishRate? || f.RateLimitBurst?
    ensures Plain(Key(f)) && Rank(|Key(f)|, Key(f)[0]) == IndexOf(f)
  {
    hide BatchKey, HeartbeatKey, BufferingKey, ExpiryKey, PackingKey, DedupKey, StorageKey;
  }

  lemma BufferingKeyFacts(f: Field)
    requires f.MaxWriteBufferSize?
    ensures Plain(Key(f)) && Rank(|Key(f)|, Key(f)[0]) == IndexOf(f)
  {
    hide BatchKey, HeartbeatKey, LimitsKey, ExpiryKey, PackingKey, DedupKey, StorageKey;
  }

  lemma ExpiryKeyFacts(f: Field)
    requires f.TtlEnabled? || f.DefaultTtlMs? || f.ExpirationCheckIntervalMs?
    ensures Plain(Key(f)) && Rank(|Key(f)|, Key(f)[0]) == IndexOf(f)
  {
    hide BatchKey, HeartbeatKey, LimitsKey, BufferingKey, PackingKey, DedupKey, StorageKey;
  }

  lemma PackingKeyFacts(f: Field)
    requires f.CompressionEnabled? || f.CompressionThresholdBytes? || f.ZeroCopyEnabled?
    ensures Plain(Key(f)) && Rank(|Key(f)|, Key(f)[0]) == IndexOf(f)
  {
    hide BatchKey, HeartbeatKey, LimitsKey, BufferingKey, ExpiryKey, DedupKey, StorageKey;
  }

  lemma DedupKeyFacts(f: Field)
    requires f.DedupEnabled? || f.DedupWindowSize?
    ensures Plain(Key(f)) && Rank(|Key(f)|, Key(f)[0]) == IndexOf(f)
  {
    hide BatchKey, HeartbeatKey, LimitsKey, BufferingKey, ExpiryKey, PackingKey, StorageKey;
  }

  lemma StorageKeyFacts(f: Field)
    requires f.DefaultRingBufferSize? || f.MaxRetryCount?
    ensures Plain(Key(f)) && Rank(|Key(f)|, Key(f)[0]) == IndexOf(f)
  {
    hide BatchKey, HeartbeatKey, LimitsKey, BufferingKey, ExpiryKey, PackingKey, DedupKey;
  }

  lemma RetryKeyFacts(f: Field)
    requires f.PendingTimeoutMs? || f.RetryIntervalMs?
    ensures Plain(Key(f)) && Rank(|Key(f)|, Key(f)[0]) == IndexOf(f)
  {
    hide BatchKey, HeartbeatKey, LimitsKey, BufferingKey, ExpiryKey, PackingKey, DedupKey;
  }

  lemma PortKeyFacts()
    ensures Plain(Key(Port)) && Rank(|Key(Port)|, Key(Port)[0]) == IndexOf(Port)
  {
    hide BatchKey, HeartbeatKey, LimitsKey, BufferingKey, ExpiryKey, PackingKey, DedupKey, StorageKey;
  }

  lemma KeyFacts(f: Field)
    ensures Plain(Key(f)) && Rank(|Key(f)|, Key(f)[0]) == IndexOf(f)
  {
    hide Key, Rank, IndexOf, FieldAt, Plain;
    match f
    case Port => PortKeyFacts();
    case BatchPublishEnabled | BatchPushEnabled | MaxBatchSize => BatchKeyFacts(f);
    case HeartbeatEnabled | HeartbeatIntervalMs | HeartbeatTimeoutMs | HeartbeatCheckIntervalMs => HeartbeatKeyFacts(f);
    case RateLimitEnabled | GlobalPublishRate | ConnPublishRate | RateLimitBurst => LimitsKeyFacts(f);
    case MaxWriteBufferSize => BufferingKeyFacts(f);
    case TtlEnabled | DefaultTtlMs | ExpirationCheckIntervalMs => ExpiryKeyFacts(f);
    case CompressionEnabled | CompressionThresholdBytes | ZeroCopyEnabled => PackingKeyFacts(f);
    case DedupEnabled | DedupWindowSize => DedupKeyFacts(f);
    case DefaultRingBufferSize | MaxRetryCount => StorageKeyFacts(f);
    case PendingTimeoutMs | RetryIntervalMs => RetryKeyFacts(f);
  }

  lemma TextPlain(c: Config, f: Field)
    ensures Plain(Text(c, f))
  {
    hide Decimal, BoolText, Plain, Key;
    match f
    case Port => DecimalPlain(c.port);
    case BatchPublishEnabled => BoolTextPlain(c.batch.batchPublishEnabled);
    case BatchPushEnabled => BoolTextPlain(c.batch.batchPushEnabled);
    case MaxBatchSize => DecimalPlain(c.batch.maxBatchSize);
    case HeartbeatEnabled => BoolTextPlain(c.heartbeat.heartbeatEnabled);
    case HeartbeatIntervalMs => DecimalPlain(c.heartbeat.heartbeatIntervalMs);
    case HeartbeatTimeoutMs => DecimalPlain(c.heartbeat.heartbeatTimeoutMs);
    case HeartbeatCheckIntervalMs => DecimalPlain(c.heartbeat.heartbeatCheckIntervalMs);
    case RateLimitEnabled => BoolTextPlain(c.limits.rateLimitEnabled);
    case GlobalPublishRate => DecimalPlain(c.limits.globalPublishRate);
    case ConnPublishRate => DecimalPlain(c.limits.connPublishRate);
    case RateLimitBurst => DecimalPlain(c.limits.rateLimitBurst);
    case MaxWriteBufferSize => DecimalPlain(c.buffering.maxWriteBufferSize);
    case TtlEnabled => BoolTextPlain(c.expiry.ttlEnabled);
    case DefaultTtlMs => DecimalPlain(c.expiry.defaultTtlMs);
    case ExpirationCheckIntervalMs => DecimalPlain(c.expiry.expirationCheckIntervalMs);
    case CompressionEnabled => BoolTextPlain(c.packing.compressionEnabled);
    case CompressionThresholdBytes => DecimalPlain(c.packing.compressionThresholdBytes);
    case ZeroCopyEnabled => BoolTextPlain(c.packing.zeroCopyEnabled);
    case DedupEnabled => BoolTextPlain(c.dedup.dedupEnabled);
    case DedupWindowSize => DecimalPlain(c.dedup.dedupWindowSize);
    case DefaultRingBufferSize => DecimalPlain(c.storage.defaultRingBufferSize);
    case MaxRetryCount => DecimalPlain(c.storage.maxRetryCount);
    case PendingTimeoutMs => DecimalPlain(c.storage.pendingTimeoutMs);
    case RetryIntervalMs => DecimalPlain(c.storage.retryIntervalMs);
  }

  lemma BoolTextPlain(b: bool)
    ensures Plain(BoolText(b))
  {
  }

  lemma DecimalPlain(n: nat)
    ensures Plain(Decimal(n))
  {
  }

  lemma EntriesWellFormed(c: Config)
    ensures WellFormed(Entries(c))
  {
    hide Key, Text, Rank, FieldAt, IndexOf, Plain;
    forall i | 0 <= i < FIELDS
      ensures Plain(Entries(c)[i].key) && Plain(Entries(c)[i].value)
    {
      KeyFacts(FieldAt(i));
      TextPlain(c, FieldAt(i));
    }
    forall i, j | 0 <= i < j < FIELDS
      ensures Entries(c)[i].key != Entries(c)[j].key
    {
      KeyFacts(FieldAt(i));
      KeyFacts(FieldAt(j));
      FieldAtOnce(i);
      FieldAtOnce(j);
    }
  }

  /** The text that is loaded after a configuration was saved. */
  function Saved(c: Config): string {
    Uncommented(Render(Entries(c)), 0, false)
  }

  lemma Found(c: Config, f: Field)
    ensures ExtractValue(Saved(c), Key(f)) == Text(c, f)
  {
    hide Key, Text, FieldAt, IndexOf;
    EntriesWellFormed(c);
    SavedIsFound(Entries(c), IndexOf(f));
  }

  lemma BoolBack(c: Config, f: Field, b: bool, before: bool)
    requires Text(c, f) == BoolText(b)
    ensures ReadBool(Saved(c), f, before) == b
  {
    hide Key, Text, Saved;
    Found(c, f);
    BoolRoundTrip(b);
  }

  lemma NumberBack(c: Config, f: Field, n: nat, before: nat, modulus: nat)
    requires Text(c, f) == Decimal(n) && n < modulus <= TWO_64 && before < modulus
    ensures ReadUnsigned(Saved(c), f, before, modulus) == n
  {
    hide Key, Text, Saved, ParseUnsigned;
    Found(c, f);
    DecimalDigits(n);
    DecimalRoundTrip(n, modulus);
  }

  lemma BatchBack(c: Config, before: Config)
    ensures LoadedBatch(Saved(c), before.batch) == c.batch
  {
    hide Saved, ReadBool, ReadUnsigned, Decimal, BoolText, Key;
    BoolBack(c, BatchPublishEnabled, c.batch.batchPublishEnabled, before.batch.batchPublishEnabled);
    BoolBack(c, BatchPushEnabled, c.batch.batchPushEnabled, before.batch.batchPushEnabled);
    NumberBack(c, MaxBatchSize, c.batch.maxBatchSize, before.batch.maxBatchSize, TWO_32);
  }

  lemma HeartbeatBack(c: Config, before: Config)
    ensures LoadedHeartbeat(Saved(c), before.heartbeat) == c.heartbeat
  {
    hide Saved, ReadBool, ReadUnsigned, Decimal, BoolText, Key;
    BoolBack(c, HeartbeatEnabled, c.heartbeat.heartbeatEnabled, before.heartbeat.heartbeatEnabled);
    NumberBack(c, HeartbeatIntervalMs, c.heartbeat.heartbeatIntervalMs, before.heartbeat.heartbeatIntervalMs, TWO_32);
    NumberBack(c, HeartbeatTimeoutMs, c.heartbeat.heartbeatTimeoutMs, before.heartbeat.heartbeatTimeoutMs, TWO_32);
    NumberBack(c, HeartbeatCheckIntervalMs, c.heartbeat.heartbeatCheckIntervalMs, before.heartbeat.heartbeatCheckIntervalMs, TWO_32);
  }

  lemma LimitsBack(c: Config, before: Config)
    ensures LoadedLimits(Saved(c), before.limits) == c.limits
  {
    hide Saved, ReadBool, ReadUnsigned, Decimal, BoolText, Key;
    BoolBack(c, RateLimitEnabled, c.limits.rateLimitEnabled, before.limits.rateLimitEnabled);
    NumberBack(c, GlobalPublishRate, c.limits.globalPublishRate, before.limits.globalPublishRate, TWO_32);
    NumberBack(c, ConnPublishRate, c.limits.connPublishRate, before.limits.connPublishRate, TWO_32);
    NumberBack(c, RateLimitBurst, c.limits.rateLimitBurst, before.limits.rateLimitBurst, TWO_32);
  }

  lemma BufferingBack(c: Config, before: Config)
    ensures LoadedBuffering(Saved(c), before.buffering) == c.buffering
  {
    hide Saved, ReadBool, ReadUnsigned, Decimal, BoolText, Key;
    NumberBack(c, MaxWriteBufferSize, c.buffering.maxWriteBufferSize, before.buffering.maxWriteBufferSize, TWO_64);
  }

  lemma ExpiryBack(c: Config, before: Config)
    ensures LoadedExpiry(Saved(c), before.expiry) == c.expiry
  {
    hide Saved, ReadBool, ReadUnsigned, Decimal, BoolText, Key;
    BoolBack(c, TtlEnabled, c.expiry.ttlEnabled, before.expiry.ttlEnabled);
    NumberBack(c, DefaultTtlMs, c.expiry.defaultTtlMs, before.expiry.defaultTtlMs, TWO_32);
    NumberBack(c, ExpirationCheckIntervalMs, c.expiry.expirationCheckIntervalMs, before.expiry.expirationCheckIntervalMs, TWO_32);
  }

  lemma PackingBack(c: Config, before: Config)
    ensures LoadedPacking(Saved(c), before.packing) == c.packing
  {
    hide Saved, ReadBool, ReadUnsigned, Decimal, BoolText, Key;
    BoolBack(c, CompressionEnabled, c.packing.compressionEnabled, before.packing.compressionEnabled);
    NumberBack(c, CompressionThresholdBytes, c.packing.compressionThresholdBytes, before.packing.compressionThresholdBytes, TWO_32);
    BoolBack(c, ZeroCopyEnabled, c.packing.zeroCopyEnabled, before.packing.zeroCopyEnabled);
  }

  lemma DedupBack(c: Config, before: Config)
    ensures LoadedDedup(Saved(c), before.dedup) == c.dedup
  {
    hide Saved, ReadBool, ReadUnsigned, Decimal, BoolText, Key;
    BoolBack(c, DedupEnabled, c.dedup.dedupEnabled, before.dedup.dedupEnabled);
    NumberBack(c, DedupWindowSize, c.dedup.dedupWindowSize, before.dedup.dedupWindowSize, TWO_64);
  }

  lemma StorageBack(c: Config, before: Config)
    ensures LoadedStorage(Saved(c), before.storage) == c.storage
  {
    hide Saved, ReadBool, ReadUnsigned, Decimal, BoolText, Key;
    NumberBack(c, DefaultRingBufferSize, c.storage.defaultRingBufferSize, before.storage.defaultRingBufferSize, TWO_64);
    NumberBack(c, MaxRetryCount, c.storage.maxRetryCount, before.storage.maxRetryCount, TWO_32);
    NumberBack(c, PendingTimeoutMs, c.storage.pendingTimeoutMs, before.storage.pendingTimeoutMs, TWO_32);
    NumberBack(c, RetryIntervalMs, c.storage.retryIntervalMs, before.storage.retryIntervalMs, TWO_32);
  }

  /** Whatever the settings, and whatever they were before loading: what was saved comes back in every field. */
  lemma RoundTrip(c: Config, before: Config)
    ensures Loaded(Uncommented(Render(Entries(c)), 0, false), before) == c
  {
    hide LoadedBatch, LoadedHeartbeat, LoadedLimits, LoadedBuffering, LoadedExpiry, LoadedPacking, LoadedDedup, LoadedStorage, ReadUnsigned, Decimal, Key;
    NumberBack(c, Port, c.port, before.port, TWO_16);
    BatchBack(c, before);
    HeartbeatBack(c, before);
    LimitsBack(c, before);
    BufferingBack(c, before);
    ExpiryBack(c, before);
    PackingBack(c, before);
    DedupBack(c, before);
    StorageBack(c, before);
  }

  lemma ReadMissing(json: string, f: Field)
    requires ExtractValue(json, Key(f)) == ""
    ensures forall b :: ReadBool(json, f, b) == b
    ensures forall n: nat, modulus: nat :: n < modulus ==> ReadUnsigned(json, f, n, modulus) == n
  {
    assert Trim("") == "";
  }

  /** A field whose key the text does not have keeps the setting it had. */
  lemma MissingKept(json: string, before: Config, f: Field)
    requires forall i :: 0 <= i <= |json| ==> !(Quoted(Key(f)) <= json[i..])
    ensures Text(Loaded(json, before), f) == Text(before, f)
  {
    hide Key, Decimal, BoolText, ReadBool, ReadUnsigned;
    ExtractMissing(json, Key(f));
    ReadMissing(json, f);
  }

  lemma {:induction false} OtherKeyAbsent(entries: seq<Entry>, key: string)
    requires WellFormed(entries) && Plain(key) && forall k :: 0 <= k < |entries| ==> entries[k].key != key
    ensures Find(Items(entries), Quoted(key)) == None
  {
    hide Find, Item, Quoted;
    if entries == [] {
      AbsentFromEnd(key);
    } else {
      OtherKeyAbsent(entries[1..], key);
      FindPastItem(entries[0], if |entries| == 1 then "\n" else ",\n", Items(entries[1..]), key);
    }
  }

  lemma AbsentFromEnd(key: string)
    ensures Find("}\n", Quoted(key)) == None
  {
    var end := "}\n";
    forall i | 0 <= i <= |end|
      ensures !(Quoted(key) <= end[i..])
    {
      if i < |end| {
        assert end[i..][0] == end[i] && end[i] in end && '"' !in end;
      }
    }
    FindIsFirst(end, Quoted(key));
  }

  /**
   A file may give any of the settings, in any order: each field whose key is there takes over its value, and each other
   field keeps the setting it had.
  */
  lemma PartialFile(entries: seq<Entry>, before: Config, f: Field)
    requires WellFormed(entries)
    ensures var json := Uncommented(Render(entries), 0, false);
            && ((forall k :: 0 <= k < |entries| ==> entries[k].key != Key(f)) ==> Text(Loaded(json, before), f) == Text(before, f))
            && (forall k, c :: 0 <= k < |entries| && entries[k] == Entry(Key(f), Text(c, f)) ==> Text(Loaded(json, before), f) == Text(c, f))
  {
    hide Key, Text, Loaded, WellFormed, Render, Uncommented, ExtractValue;
    var json := Uncommented(Render(entries), 0, false);
    if forall k :: 0 <= k < |entries| ==> entries[k].key != Key(f) {
      KeyFacts(f);
      RenderedKeyAbsent(entries, Key(f));
      ValueMissing(json, before, f);
    }
    forall k, c | 0 <= k < |entries| && entries[k] == Entry(Key(f), Text(c, f))
      ensures Text(Loaded(json, before), f) == Text(c, f)
    {
      SavedIsFound(entries, k);
      ValueTaken(json, before, c, f);
    }
  }

  lemma RenderedKeyAbsent(entries: seq<Entry>, key: string)
    requires WellFormed(entries) && Plain(key) && forall k :: 0 <= k < |entries| ==> entries[k].key != key
    ensures ExtractValue(Uncommented(Render(entries), 0, false), key) == ""
  {
    hide Find, Items, Quoted, Trim, UpToEnd, WellFormed;
    RenderedIsKept(entries);
    OtherKeyAbsent(entries, key);
    FindPastBrace(Items(entries), key);
  }

  lemma RenderedIsKept(entries: seq<Entry>)
    requires WellFormed(entries)
    ensures Uncommented(Render(entries), 0, false) == Render(entries)
  {
    hide Uncommented;
    NoSlashInItems(entries);
    NothingToRemove(Render(entries), 0, false);
    assert Render(entries)[0..] == Render(entries);
  }

  lemma ValueMissing(json: string, before: Config, f: Field)
    requires ExtractValue(json, Key(f)) == ""
    ensures Text(Loaded(json, before), f) == Text(before, f)
  {
    hide Key, Decimal, BoolText, ReadBool, ReadUnsigned;
    ReadMissing(json, f);
  }

  /** A value that is neither a truth value nor a number leaves its field as it was. */
  lemma UnreadableKept(json: string, before: Config, f: Field)
    requires var value := ExtractValue(json, Key(f)); ParseBool(value) == None && Stoull(Trim(value)) == None
    ensures Text(Loaded(json, before), f) == Text(before, f)
  {
    hide Key, Decimal, BoolText, ReadBool, ReadUnsigned, ExtractValue;
    ReadUnreadable(json, f);
  }

  lemma ReadUnreadable(json: string, f: Field)
    requires var value := ExtractValue(json, Key(f)); ParseBool(value) == None && Stoull(Trim(value)) == None
    ensures forall b :: ReadBool(json, f, b) == b
    ensures forall n: nat, modulus: nat :: n < modulus ==> ReadUnsigned(json, f, n, modulus) == n
  {
    hide Stoull, ParseBool;
  }

  lemma ValueTaken(json: string, before: Config, c: Config, f: Field)
    requires ExtractValue(json, Key(f)) == Text(c, f)
    ensures Text(Loaded(json, before), f) == Text(c, f)
  {
    hide Key, Decimal, BoolText, ReadBool, ReadUnsigned;
    match f
    case Port => NumberTaken(json, f, c.port, TWO_16);
    case BatchPublishEnabled => BoolTaken(json, f, c.batch.batchPublishEnabled);
    case BatchPushEnabled => BoolTaken(json, f, c.batch.batchPushEnabled);
    case MaxBatchSize => NumberTaken(json, f, c.batch.maxBatchSize, TWO_32);
    case HeartbeatEnabled => BoolTaken(json, f, c.heartbeat.heartbeatEnabled);
    case HeartbeatIntervalMs => NumberTaken(json, f, c.heartbeat.heartbeatIntervalMs, TWO_32);
    case HeartbeatTimeoutMs => NumberTaken(json, f, c.heartbeat.heartbeatTimeoutMs, TWO_32);
    case HeartbeatCheckIntervalMs => NumberTaken(json, f, c.heartbeat.heartbeatCheckIntervalMs, TWO_32);
    case RateLimitEnabled => BoolTaken(json, f, c.limits.rateLimitEnabled);
    case GlobalPublishRate => NumberTaken(json, f, c.limits.globalPublishRate, TWO_32);
    case ConnPublishRate => NumberTaken(json, f, c.limits.connPublishRate, TWO_32);
    case RateLimitBurst => NumberTaken(json, f, c.limits.rateLimitBurst, TWO_32);
    case MaxWriteBufferSize => NumberTaken(json, f, c.buffering.maxWriteBufferSize, TWO_64);
    case TtlEnabled => BoolTaken(json, f, c.expiry.ttlEnabled);
    case DefaultTtlMs => NumberTaken(json, f, c.expiry.defaultTtlMs, TWO_32);
    case ExpirationCheckIntervalMs => NumberTaken(json, f, c.expiry.expirationCheckIntervalMs, TWO_32);
    case CompressionEnabled => BoolTaken(json, f, c.packing.compressionEnabled);
    case CompressionThresholdBytes => NumberTaken(json, f, c.packing.compressionThresholdBytes, TWO_32);
    case ZeroCopyEnabled => BoolTaken(json, f, c.packing.zeroCopyEnabled);
    case DedupEnabled => BoolTaken(json, f, c.dedup.dedupEnabled);
    case DedupWindowSize => NumberTaken(json, f, c.dedup.dedupWindowSize, TWO_64);
    case DefaultRingBufferSize => NumberTaken(json, f, c.storage.defaultRingBufferSize, TWO_64);
    case MaxRetryCount => NumberTaken(json, f, c.storage.maxRetryCount, TWO_32);
    case PendingTimeoutMs => NumberTaken(json, f, c.storage.pendingTimeoutMs, TWO_32);
    case RetryIntervalMs => NumberTaken(json, f, c.storage.retryIntervalMs, TWO_32);
  }

  lemma BoolTaken(json: string, f: Field, b: bool)
    ensures ExtractValue(json, Key(f)) == BoolText(b) ==> forall was :: ReadBool(json, f, was) == b
  {
    hide Key;
    BoolRoundTrip(b);
  }

  lemma NumberTaken(json: string, f: Field, n: nat, modulus: nat)
    requires n < modulus <= TWO_64
    ensures ExtractValue(json, Key(f)) == Decimal(n) ==> forall was: nat :: was < modulus ==> ReadUnsigned(json, f, was, modulus) == n
  {
    hide Key, ParseUnsigned, Decimal;
    DecimalDigits(n);
    DecimalRoundTrip(n, modulus);
  }

  class BrokerConfig {
    var port: uint16
    var batchPublishEnabled: bool
    var batchPushEnabled: bool
    var maxBatchSize: uint32
    var heartbeatEnabled: bool
    var heartbeatIntervalMs: uint32
    var heartbeatTimeoutMs: uint32
    var heartbeatCheckIntervalMs: uint32
    var rateLimitEnabled: bool
    var globalPublishRate: uint32
    var connPublishRate: uint32
    var rateLimitBurst: uint32
    var maxWriteBufferSize: uint64
    var ttlEnabled: bool
    var defaultTtlMs: uint32
    var expirationCheckIntervalMs: uint32
    var compressionEnabled: bool
    var compressionThresholdBytes: uint32
    var zeroCopyEnabled: bool
    var dedupEnabled: bool
    var dedupWindowSize: uint64
    var defaultRingBufferSize: uint64
    var maxRetryCount: uint32
    var pendingTimeoutMs: uint32
    var retryIntervalMs: uint32

    function BatchValue(): Batch
      reads this
    {
      Batch(batchPublishEnabled, batchPushEnabled, maxBatchSize)
    }

    function HeartbeatValue(): Heartbeat
      reads this
    {
      Heartbeat(heartbeatEnabled, heartbeatIntervalMs, heartbeatTimeoutMs, heartbeatCheckIntervalMs)
    }

    function LimitsValue(): Limits
      reads this
    {
      Limits(rateLimitEnabled, globalPublishRate, connPublishRate, rateLimitBurst)
    }

    function BufferingValue(): Buffering
      reads this
    {
      Buffering(maxWriteBufferSize)
    }

    function ExpiryValue(): Expiry
      reads this
    {
      Expiry(ttlEnabled, defaultTtlMs, expirationCheckIntervalMs)
    }

    function PackingValue(): Packing
      reads this
    {
      Packing(compressionEnabled, compressionThresholdBytes, zeroCopyEnabled)
    }

    function DedupValue(): Dedup
      reads this
    {
      Dedup(dedupEnabled, dedupWindowSize)
    }

    function StorageValue(): Storage
      reads this
    {
      Storage(defaultRingBufferSize, maxRetryCount, pendingTimeoutMs, retryIntervalMs)
    }

    function Value(): Config
      reads this
    {
      Config(port, BatchValue(), HeartbeatValue(), LimitsValue(), BufferingValue(), ExpiryValue(), PackingValue(), DedupValue(), StorageValue())
    }

    constructor (c: Config)
      ensures Value() == c
    {
      port := c.port;
      batchPublishEnabled := c.batch.batchPublishEnabled;
      batchPushEnabled := c.batch.batchPushEnabled;
      maxBatchSize := c.batch.maxBatchSize;
      heartbeatEnabled := c.heartbeat.heartbeatEnabled;
      heartbeatIntervalMs := c.heartbeat.heartbeatIntervalMs;
      heartbeatTimeoutMs := c.heartbeat.heartbeatTimeoutMs;
      heartbeatCheckIntervalMs := c.heartbeat.heartbeatCheckIntervalMs;
      rateLimitEnabled := c.limits.rateLimitEnabled;
      globalPublishRate := c.limits.globalPublishRate;
      connPublishRate := c.limits.connPublishRate;
      rateLimitBurst := c.limits.rateLimitBurst;
      maxWriteBufferSize := c.buffering.maxWriteBufferSize;
      ttlEnabled := c.expiry.ttlEnabled;
      defaultTtlMs := c.expiry.defaultTtlMs;
      expirationCheckIntervalMs := c.expiry.expirationCheckIntervalMs;
      compressionEnabled := c.packing.compressionEnabled;
      compressionThresholdBytes := c.packing.compressionThresholdBytes;
      zeroCopyEnabled := c.packing.zeroCopyEnabled;
      dedupEnabled := c.dedup.dedupEnabled;
      dedupWindowSize := c.dedup.dedupWindowSize;
      defaultRingBufferSize := c.storage.defaultRingBufferSize;
      maxRetryCount := c.storage.maxRetryCount;
      pendingTimeoutMs := c.storage.pendingTimeoutMs;
      retryIntervalMs := c.storage.retryIntervalMs;
    }

    /** Takes over what the file says; a file that cannot be opened changes nothing. */
    method LoadFromFile(file: Option<string>) returns (ok: bool)
      modifies this
      ensures ok <==> file.Some?
      ensures Value() == if ok then Loaded(Uncommented(file.value, 0, false), old(Value())) else old(Value())
    {
      hide BrokerConfig.Value, ReadBool, ReadUnsigned, Uncommented, LoadedBatch, LoadedHeartbeat, LoadedLimits, LoadedBuffering, LoadedExpiry, LoadedPacking, LoadedDedup, LoadedStorage;
      if file.None? {
        return false;
      }
      var json := RemoveComments(file.value);
      LoadPort(json);
      LoadBatch(json);
      LoadHeartbeat(json);
      LoadLimits(json);
      LoadBuffering(json);
      LoadExpiry(json);
      LoadPacking(json);
      LoadDedup(json);
      LoadStorage(json);
      return true;
    }

    method LoadPort(json: string)
      modifies this`port
      ensures Value() == old(Value()).(port := ReadUnsigned(json, Port, old(Value()).port, TWO_16))
    {
      hide ReadUnsigned;
      port := ReadUnsigned(json, Port, port, TWO_16);
    }

    method LoadBatch(json: string)
      modifies this`batchPublishEnabled, this`batchPushEnabled, this`maxBatchSize
      ensures Value() == old(Value()).(batch := LoadedBatch(json, old(Value()).batch))
    {
      hide ReadBool, ReadUnsigned;
      var before := BatchValue();
      batchPublishEnabled := ReadBool(json, BatchPublishEnabled, before.batchPublishEnabled);
      batchPushEnabled := ReadBool(json, BatchPushEnabled, before.batchPushEnabled);
      maxBatchSize := ReadUnsigned(json, MaxBatchSize, before.maxBatchSize, TWO_32);
    }

    method LoadHeartbeat(json: string)
      modifies this`heartbeatEnabled, this`heartbeatIntervalMs, this`heartbeatTimeoutMs, this`heartbeatCheckIntervalMs
      ensures Value() == old(Value()).(heartbeat := LoadedHeartbeat(json, old(Value()).heartbeat))
    {
      hide ReadBool, ReadUnsigned;
      var before := HeartbeatValue();
      heartbeatEnabled := ReadBool(json, HeartbeatEnabled, before.heartbeatEnabled);
      heartbeatIntervalMs := ReadUnsigned(json, HeartbeatIntervalMs, before.heartbeatIntervalMs, TWO_32);
      heartbeatTimeoutMs := ReadUnsigned(json, HeartbeatTimeoutMs, before.heartbeatTimeoutMs, TWO_32);
      heartbeatCheckIntervalMs := ReadUnsigned(json, HeartbeatCheckIntervalMs, before.heartbeatCheckIntervalMs, TWO_32);
    }

    method LoadLimits(json: string)
      modifies this`rateLimitEnabled, this`globalPublishRate, this`connPublishRate, this`rateLimitBurst
      ensures Value() == old(Value()).(limits := LoadedLimits(json, old(Value()).limits))
    {
      hide ReadBool, ReadUnsigned;
      var before := LimitsValue();
      rateLimitEnabled := ReadBool(json, RateLimitEnabled, before.rateLimitEnabled);
      globalPublishRate := ReadUnsigned(json, GlobalPublishRate, before.globalPublishRate, TWO_32);
      connPublishRate := ReadUnsigned(json, ConnPublishRate, before.connPublishRate, TWO_32);
      rateLimitBurst := ReadUnsigned(json, RateLimitBurst, before.rateLimitBurst, TWO_32);
    }

    method LoadBuffering(json: string)
      modifies this`maxWriteBufferSize
      ensures Value() == old(Value()).(buffering := LoadedBuffering(json, old(Value()).buffering))
    {
      hide ReadBool, ReadUnsigned;
      var before := BufferingValue();
      maxWriteBufferSize := ReadUnsigned(json, MaxWriteBufferSize, before.maxWriteBufferSize, TWO_64);
    }

    method LoadExpiry(json: string)
      modifies this`ttlEnabled, this`defaultTtlMs, this`expirationCheckIntervalMs
      ensures Value() == old(Value()).(expiry := LoadedExpiry(json, old(Value()).expiry))
    {
      hide ReadBool, ReadUnsigned;
      var before := ExpiryValue();
      ttlEnabled := ReadBool(json, TtlEnabled, before.ttlEnabled);
      defaultTtlMs := ReadUnsigned(json, DefaultTtlMs, before.defaultTtlMs, TWO_32);
      expirationCheckIntervalMs := ReadUnsigned(json, ExpirationCheckIntervalMs, before.expirationCheckIntervalMs, TWO_32);
    }

    method LoadPacking(json: string)
      modifies this`compressionEnabled, this`compressionThresholdBytes, this`zeroCopyEnabled
      ensures Value() == old(Value()).(packing := LoadedPacking(json, old(Value()).packing))
    {
      hide ReadBool, ReadUnsigned;
      var before := PackingValue();
      compressionEnabled := ReadBool(json, CompressionEnabled, before.compressionEnabled);
      compressionThresholdBytes := ReadUnsigned(json, CompressionThresholdBytes, before.compressionThresholdBytes, TWO_32);
      zeroCopyEnabled := ReadBool(json, ZeroCopyEnabled, before.zeroCopyEnabled);
    }

    method LoadDedup(json: string)
      modifies this`dedupEnabled, this`dedupWindowSize
      ensures Value() == old(Value()).(dedup := LoadedDedup(json, old(Value()).dedup))
    {
      hide ReadBool, ReadUnsigned;
      var before := DedupValue();
      dedupEnabled := ReadBool(json, DedupEnabled, before.dedupEnabled);
      dedupWindowSize := ReadUnsigned(json, DedupWindowSize, before.dedupWindowSize, TWO_64);
    }

    method LoadStorage(json: string)
      modifies this`defaultRingBufferSize, this`maxRetryCount, this`pendingTimeoutMs, this`retryIntervalMs
      ensures Value() == old(Value()).(storage := LoadedStorage(json, old(Value()).storage))
    {
      hide ReadBool, ReadUnsigned;
      var before := StorageValue();
      defaultRingBufferSize := ReadUnsigned(json, DefaultRingBufferSize, before.defaultRingBufferSize, TWO_64);
      maxRetryCount := ReadUnsigned(json, MaxRetryCount, before.maxRetryCount, TWO_32);
      pendingTimeoutMs := ReadUnsigned(json, PendingTimeoutMs, before.pendingTimeoutMs, TWO_32);
      retryIntervalMs := ReadUnsigned(json, RetryIntervalMs, before.retryIntervalMs, TWO_32);
    }

    /** Replaces the file, or leaves it when it cannot be opened. */
    method SaveToFile(opens: bool, before: Option<string>) returns (ok: bool, file: Option<string>)
      ensures ok <==> opens
      ensures file == if ok then Some(Render(Entries(Value()))) else before
    {
      hide *;
      if !opens {
        return false, before;
      }
      var text := WriteText();
      return true, Some(text);
    }

    /** The whole text of the file. */
    method WriteText() returns (file: string)
      ensures file == Render(Entries(Value()))
    {
      hide Render, Items, Decimal, BoolText, Entries, Text, Key, FieldAt;
      StartOfRender(Value());
      file := "{\n";
      file := SavePort(file);
      file := SaveBatch(file);
      file := SaveHeartbeat(file);
      file := SaveLimits(file);
      file := SaveBuffering(file);
      file := SaveExpiry(file);
      file := SavePacking(file);
      file := SaveDedup(file);
      file := SaveStorage(file);
      EndOfItems(Value());
      file := file + "}\n";
    }

    method SavePort(before: string) returns (file: string)
      requires Written(before, Value(), 0)
      ensures Written(file, Value(), 1)
    {
      hide Written, Decimal, Key;
      file := Append(before, Port, Decimal(port), Value());
    }

    method SaveBatch(before: string) returns (file: string)
      requires Written(before, Value(), 1)
      ensures Written(file, Value(), 4)
    {
      hide Written, Decimal, BoolText, Key;
      file := before;
      file := Append(file, BatchPublishEnabled, BoolText(batchPublishEnabled), Value());
      file := Append(file, BatchPushEnabled, BoolText(batchPushEnabled), Value());
      file := Append(file, MaxBatchSize, Decimal(maxBatchSize), Value());
    }

    method SaveHeartbeat(before: string) returns (file: string)
      requires Written(before, Value(), 4)
      ensures Written(file, Value(), 8)
    {
      hide Written, Decimal, BoolText, Key;
      file := before;
      file := Append(file, HeartbeatEnabled, BoolText(heartbeatEnabled), Value());
      file := Append(file, HeartbeatIntervalMs, Decimal(heartbeatIntervalMs), Value());
      file := Append(file, HeartbeatTimeoutMs, Decimal(heartbeatTimeoutMs), Value());
      file := Append(file, HeartbeatCheckIntervalMs, Decimal(heartbeatCheckIntervalMs), Value());
    }

    method SaveLimits(before: string) returns (file: string)
      requires Written(before, Value(), 8)
      ensures Written(file, Value(), 12)
    {
      hide Written, Decimal, BoolText, Key;
      file := before;
      file := Append(file, RateLimitEnabled, BoolText(rateLimitEnabled), Value());
      file := Append(file, GlobalPublishRate, Decimal(globalPublishRate), Value());
      file := Append(file, ConnPublishRate, Decimal(connPublishRate), Value());
      file := Append(file, RateLimitBurst, Decimal(rateLimitBurst), Value());
    }

    method SaveBuffering(before: string) returns (file: string)
      requires Written(before, Value(), 12)
      ensures Written(file, Value(), 13)
    {
      hide Written, Decimal, BoolText, Key;
      file := before;
      file := Append(file, MaxWriteBufferSize, Decimal(maxWriteBufferSize), Value());
    }

    method SaveExpiry(before: string) returns (file: string)
      requires Written(before, Value(), 13)
      ensures Written(file, Value(), 16)
    {
      hide Written, Decimal, BoolText, Key;
      file := before;
      file := Append(file, TtlEnabled, BoolText(ttlEnabled), Value());
      file := Append(file, DefaultTtlMs, Decimal(defaultTtlMs), Value());
      file := Append(file, ExpirationCheckIntervalMs, Decimal(expirationCheckIntervalMs), Value());
    }

    method SavePacking(before: string) returns (file: string)
      requires Written(before, Value(), 16)
      ensures Written(file, Value(), 19)
    {
      hide Written, Decimal, BoolText, Key;
      file := before;
      file := Append(file, CompressionEnabled, BoolText(compressionEnabled), Value());
      file := Append(file, CompressionThresholdBytes, Decimal(compressionThresholdBytes), Value());
      file := Append(file, ZeroCopyEnabled, BoolText(zeroCopyEnabled), Value());
    }

    method SaveDedup(before: string) returns (file: string)
      requires Written(before, Value(), 19)
      ensures Written(file, Value(), 21)
    {
      hide Written, Decimal, BoolText, Key;
      file := before;
      file := Append(file, DedupEnabled, BoolText(dedupEnabled), Value());
      file := Append(file, DedupWindowSize, Decimal(dedupWindowSize), Value());
    }

    method SaveStorage(before: string) returns (file: string)
      requires Written(before, Value(), 21)
      ensures Written(file, Value(), 25)
    {
      hide Written, Decimal, BoolText, Key;
      file := before;
      file := Append(file, DefaultRingBufferSize, Decimal(defaultRingBufferSize), Value());
      file := Append(file, MaxRetryCount, Decimal(maxRetryCount), Value());
      file := Append(file, PendingTimeoutMs, Decimal(pendingTimeoutMs), Value());
      file := Append(file, RetryIntervalMs, Decimal(retryIntervalMs), Value());
    }
  }

  /** What is written is the beginning of the whole text, up to the first `i` fields. */
  ghost predicate Written(file: string, c: Config, i: nat) {
    i <= FIELDS && file + Items(Entries(c)[i..]) == Render(Entries(c))
  }

  lemma StartOfRender(c: Config)
    ensures Written("{\n", c, 0)
  {
  }

  lemma EndOfItems(c: Config)
    ensures forall file :: Written(file, c, FIELDS) ==> file + "}\n" == Render(Entries(c))
  {
  }

  /** Writes one line of the file. */
  method Append(file: string, f: Field, value: string, ghost c: Config) returns (r: string)
    requires Text(c, f) == value && Written(file, c, IndexOf(f))
    ensures Written(r, c, IndexOf(f) + 1)
  {
    hide Render, FieldAt, Text, Key;
    ghost var entries, i := Entries(c), IndexOf(f);
    var line := Item(Entry(Key(f), value)) + if f.RetryIntervalMs? then "\n" else ",\n";
    LastField(f);
    assert entries[i..][1..] == entries[i + 1..];
    ConcatAssociative(file, line, Items(entries[i + 1..]));
    r := file + line;
  }

  lemma LastField(f: Field)
    ensures f.RetryIntervalMs? <==> IndexOf(f) + 1 == FIELDS
  {
  }
}
