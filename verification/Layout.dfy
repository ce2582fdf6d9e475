/** The pool's binary layout: constants, dimensions and offset arithmetic (fence-core). */
module Layout {
  import opened Bytes

  const HEADER_SIZE := 64
  const RECORD_META_SIZE := 64
  const CACHELINE := 64

  const STATE_FREE: byte := 0
  const STATE_WRITING: byte := 1
  const STATE_COMMITTED: byte := 2
  const STATE_ABANDONED: byte := 3

  const MAGIC: u64 := 0x46454E43455F4C4F
  const HDR_MAGIC := 0
  const HDR_CAPACITY := 8
  const HDR_RECORD_SIZE := 16
  const HDR_MAX_HOSTS := 24
  const HDR_COMMITTED_TAIL := 32
  const HDR_RESERVE_TAIL := 40
  const HDR_EPOCH := 48

  const REC_STATE := 0
  const REC_TERM := 8
  const REC_INDEX := 16
  const REC_WRITER_ID := 24
  const REC_DATA_LEN := 32
  const REC_CHECKSUM := 40

  /** Runtime-configured pool dimensions. */
  datatype Geometry = Geometry(capacity: nat, payloadSize: nat, maxHosts: nat, recordSize: nat, totalSize: nat)
  {
    /** Absolute offset of record `slot`. */
    function RecordOffset(slot: nat): nat {
      HEADER_SIZE + slot * recordSize
    }

    function RecordsEnd(): nat {
      HEADER_SIZE + capacity * recordSize
    }

    /** Absolute offset of the metrics block of `host`. */
    function MetricsOffset(host: nat): nat {
      RecordsEnd() + host * CACHELINE
    }

    /** The dimensions that PoolGeometry::new computes from a validated configuration. */
    predicate Ok() {
      && 0 < capacity < U32_LIMIT
      && 0 < payloadSize <= 65536 && payloadSize % 8 == 0
      && 0 < maxHosts <= 256
      && recordSize == RECORD_META_SIZE + payloadSize
      && totalSize == HEADER_SIZE + recordSize * capacity + CACHELINE * maxHosts
    }
  }

  datatype Config = Config(capacity: nat, payloadSize: nat, maxHosts: nat, hostId: nat, strategy: string)
  {
    /** The machine types of the fields: u32, u32, u16, u16. */
    predicate Typed() {
      capacity < U32_LIMIT && payloadSize < U32_LIMIT && maxHosts < U16_LIMIT && hostId < U16_LIMIT
    }
  }

  datatype ConfigField = CapacityField | PayloadSizeField | MaxHostsField | HostIdField | StrategyField

  /** FenceConfig::validate: the first field that is out of range, in the order of the checks. */
  function Validate(c: Config): Option<ConfigField> {
    if c.capacity == 0 then Some(CapacityField)
    else if c.payloadSize == 0 then Some(PayloadSizeField)
    else if c.payloadSize > 65536 then Some(PayloadSizeField)
    else if c.payloadSize % 8 != 0 then Some(PayloadSizeField)
    else if c.maxHosts == 0 || c.maxHosts > 256 then Some(MaxHostsField)
    else if c.hostId >= c.maxHosts then Some(HostIdField)
    else if c.strategy !in {"error", "segmented", "circular"} then Some(StrategyField)
    else None
  }

  /** Exactly which configurations are accepted, and which field is blamed for the others. */
  lemma ValidateIff(c: Config)
    ensures var size := 0 < c.payloadSize <= 65536 && c.payloadSize % 8 == 0;
            var known := c.strategy == "error" || c.strategy == "segmented" || c.strategy == "circular";
            && (Validate(c) == Some(CapacityField) <==> c.capacity == 0)
            && (Validate(c) == Some(PayloadSizeField) <==> c.capacity > 0 && !size)
            && (Validate(c) == Some(MaxHostsField) <==> c.capacity > 0 && size && !(1 <= c.maxHosts <= 256))
            && (Validate(c) == Some(HostIdField) <==>
                  c.capacity > 0 && size && 1 <= c.maxHosts <= 256 && c.hostId >= c.maxHosts)
            && (Validate(c) == None <==>
                  c.capacity > 0 && size && 1 <= c.maxHosts <= 256 && c.hostId < c.maxHosts && known)
  {
  }

  /** PoolGeometry::new, with its three assertions as None and its machine arithmetic wrapped. */
  function NewGeometry(capacity: nat, payloadSize: nat, maxHosts: nat): Option<Geometry> {
    if capacity == 0 || payloadSize == 0 || maxHosts == 0 then None
    else
      var recordSize := (RECORD_META_SIZE + payloadSize) % U32_LIMIT;
      var records := (recordSize * capacity) % U64_LIMIT;
      var metrics := (CACHELINE * maxHosts) % U64_LIMIT;
      Some(Geometry(capacity, payloadSize, maxHosts, recordSize, (HEADER_SIZE + records + metrics) % U64_LIMIT))
  }

  /** Which assertions of PoolGeometry::new fail. */
  lemma NewGeometryPanicsIff(capacity: nat, payloadSize: nat, maxHosts: nat)
    ensures NewGeometry(capacity, payloadSize, maxHosts) == None <==> capacity == 0 || payloadSize == 0 || maxHosts == 0
  {
  }

  /** A validated configuration yields dimensions in which no machine addition or product wrapped. */
  lemma ValidatedGeometry(c: Config)
    requires c.Typed() && Validate(c) == None
    ensures var g := NewGeometry(c.capacity, c.payloadSize, c.maxHosts);
            g.Some? && g.value.Ok() && g.value.totalSize < U64_LIMIT
            && g.value.capacity == c.capacity && g.value.payloadSize == c.payloadSize && g.value.maxHosts == c.maxHosts
  {
    var recordSize := RECORD_META_SIZE + c.payloadSize;
    assert recordSize % U32_LIMIT == recordSize;
    ProductBelow(recordSize, c.capacity, 65601, U32_LIMIT);
    var records := recordSize * c.capacity;
    assert records < 65601 * U32_LIMIT;
    NoWrap(records, CACHELINE * c.maxHosts);
  }

  lemma NoWrap(records: nat, metrics: nat)
    requires records < 65601 * U32_LIMIT && metrics <= 64 * 256
    ensures records % U64_LIMIT == records && metrics % U64_LIMIT == metrics
    ensures (HEADER_SIZE + records + metrics) % U64_LIMIT == HEADER_SIZE + records + metrics
  {
  }

  lemma ProductBelow(a: nat, b: nat, m: nat, n: nat)
    requires a < m && b < n
    ensures a * b < m * n
  {
    calc {
      a * b;
    <=  { MulLe(b, n, a); }
      a * n;
    <  { MulLe(a + 1, m, n); }
      m * n;
    }
  }

  lemma MulLe(a: nat, b: nat, k: nat)
    requires a <= b
    ensures a * k <= b * k && k * a <= k * b
  {
  }

  lemma DivMono(a: nat, b: nat)
    requires a <= b
    ensures a / CACHELINE <= b / CACHELINE
  {
  }

  /** Records lie one after the other between the header and the metrics blocks. */
  lemma RecordBounds(g: Geometry, u: nat)
    requires g.Ok() && u < g.capacity
    ensures HEADER_SIZE <= g.RecordOffset(u)
    ensures g.RecordOffset(u) + g.recordSize <= g.RecordsEnd() <= g.totalSize
  {
    Successor(u, g.capacity, g.recordSize);
  }

  lemma Successor(u: nat, w: nat, k: nat)
    requires u < w
    ensures u * k + k <= w * k && 0 <= u * k
  {
    assert (u + 1) * k == u * k + k;
    MulLe(u + 1, w, k);
  }

  lemma RecordAligned(g: Geometry, u: nat)
    requires g.Ok()
    ensures g.RecordOffset(u) % 8 == 0
  {
    assert g.recordSize % 8 == 0;
    Mul8(u, g.recordSize);
  }

  lemma RecordsDisjoint(g: Geometry, u: nat, w: nat)
    requires g.Ok() && u < w
    ensures g.RecordOffset(u) + g.recordSize <= g.RecordOffset(w)
  {
    Successor(u, w, g.recordSize);
  }

  lemma Mul8(u: nat, k: nat)
    requires k % 8 == 0
    ensures (u * k) % 8 == 0
  {
    assert u * k == 8 * (u * (k / 8)) by {
      assert k == 8 * (k / 8);
    }
  }

  /** Who a byte of the pool belongs to. */
  datatype Region = Header | Record(slot: nat) | Metrics(host: nat)

  ghost predicate Holds(g: Geometry, x: Region, i: int) {
    match x
    case Header => 0 <= i < HEADER_SIZE
    case Record(u) => u < g.capacity && g.RecordOffset(u) <= i < g.RecordOffset(u) + g.recordSize
    case Metrics(h) => h < g.maxHosts && g.MetricsOffset(h) <= i < g.MetricsOffset(h) + CACHELINE
  }

  /** The region of byte i, by division. */
  function RegionOf(g: Geometry, i: nat): Region
    requires g.Ok()
  {
    if i < HEADER_SIZE then Header
    else if i < g.RecordsEnd() then Record(Quotient(i - HEADER_SIZE, g.recordSize))
    else Metrics(Quotient(i - g.RecordsEnd(), CACHELINE))
  }

  function Quotient(a: nat, d: nat): nat
    requires d > 0
  {
    a / d
  }

  /** Header, records and metrics blocks tile the pool: every byte is in exactly one of them. */
  lemma RegionsTile(g: Geometry, i: int, x: Region)
    requires g.Ok()
    ensures (0 <= i < g.totalSize) ==> Holds(g, RegionOf(g, i), i)
    ensures Holds(g, x, i) ==> 0 <= i < g.totalSize && x == RegionOf(g, i)
  {
    if HEADER_SIZE <= i < g.RecordsEnd() {
      var q := (i - HEADER_SIZE) / g.recordSize;
      DivBounds(i - HEADER_SIZE, g.recordSize);
      if q >= g.capacity {
        MulLe(g.capacity, q, g.recordSize);
      }
    }
    if Holds(g, x, i) {
      match x {
        case Header =>
          MulLe(0, g.capacity, g.recordSize);
        case Record(u) =>
          RecordBounds(g, u);
          DivUnique(i - HEADER_SIZE, g.recordSize, u);
        case Metrics(h) =>
          MulLe(0, g.capacity, g.recordSize);
      }
    }
  }

  lemma DivBounds(a: nat, d: nat)
    requires d > 0
    ensures (a / d) * d <= a < (a / d) * d + d
  {
    assert a == (a / d) * d + a % d;
  }

  lemma DivUnique(a: nat, d: nat, q: nat)
    requires d > 0 && q * d <= a < q * d + d
    ensures a / d == q
  {
    DivBounds(a, d);
    var p := a / d;
    assert (p - q) * d == p * d - q * d;
    SmallMultiple(p - q, d);
  }

  lemma SmallMultiple(x: int, d: nat)
    requires d > 0 && 0 - d < x * d < d
    ensures x == 0
  {
  }

  function Base(g: Geometry, x: Region): nat {
    match x
    case Header => 0
    case Record(u) => g.RecordOffset(u)
    case Metrics(h) => g.MetricsOffset(h)
  }

  lemma BaseAligned(g: Geometry, x: Region)
    requires g.Ok()
    ensures Base(g, x) % 8 == 0
  {
    match x {
      case Header =>
      case Record(u) => RecordAligned(g, u);
      case Metrics(h) =>
        RecordAligned(g, g.capacity);
        Sum8(g.RecordsEnd(), h);
    }
  }

  lemma Sum8(a: nat, h: nat)
    requires a % 8 == 0
    ensures (a + h * CACHELINE) % 8 == 0
  {
  }

  lemma AlignedWord(off: nat)
    requires off % 8 == 0
    ensures off / CACHELINE == (off + 7) / CACHELINE
  {
  }

  lemma AlignedField(g: Geometry, x: Region, field: nat)
    requires g.Ok() && field % 8 == 0
    ensures var off := Base(g, x) + field; off % 8 == 0 && off / CACHELINE == (off + 7) / CACHELINE
  {
    hide Base, Geometry.Ok;
    BaseAligned(g, x);
    WordAfter(Base(g, x), field);
  }

  lemma WordAfter(b: nat, field: nat)
    requires b % 8 == 0 && field % 8 == 0
    ensures (b + field) % 8 == 0 && (b + field) / CACHELINE == (b + field + 7) / CACHELINE
  {
    AlignedWord(b + field);
  }

  predicate Exists(g: Geometry, x: Region) {
    match x
    case Header => true
    case Record(u) => u < g.capacity
    case Metrics(h) => h < g.maxHosts
  }

  lemma FieldInside(g: Geometry, x: Region, i: int)
    requires g.Ok() && Exists(g, x) && Base(g, x) <= i < Base(g, x) + CACHELINE
    ensures Holds(g, x, i) && i < g.totalSize
  {
    RegionsTile(g, i, x);
  }

  /** Every 64-bit access the runtime makes to the header, a record's metadata or a metrics block is aligned,
      in bounds, inside its own region, and never straddles two cache lines. */
  lemma AtomicAccessesAligned(g: Geometry, x: Region, field: nat)
    requires g.Ok() && Exists(g, x) && field % 8 == 0 && field + 8 <= CACHELINE
    ensures var off := Base(g, x) + field;
            && off % 8 == 0 && off / CACHELINE == (off + 7) / CACHELINE
            && off + 8 <= g.totalSize && forall i | off <= i < off + 8 :: Holds(g, x, i)
  {
    AlignedField(g, x, field);
    FieldInside(g, x, Base(g, x) + field + 7);
    forall i | Base(g, x) + field <= i < Base(g, x) + field + 8 ensures Holds(g, x, i) {
      FieldInside(g, x, i);
    }
  }
}
