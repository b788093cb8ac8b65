/**
 * The lookup protocol: a master hands out record-id ranges and runs two barriers, clients
 * write their records, read everybody else's peer to peer, and free their memory only
 * after the done barrier. Every interleaving of the clients' steps is a run.
 */
module Lookup {
  import opened Sums
  import opened Text
  import opened Arithmetic

  const MSG_SIZE := 64
  const MAX_RECORDS := 64
  const MAX_CLIENTS := 16
  const SCRATCH_OFF := 4096
  const BUF_LEN := 8192

  type Data = seq<Byte>

  // ---------------------------------------------------------------- records

  function Ascii(s: string): (b: Data)
    ensures |b| == |s|
  {
    seq(|s|, i requires 0 <= i < |s| => s[i] as int % 256)
  }

  function Caption(rid: nat, name: Data): (b: Data)
  {
    Ascii("record ") + Ascii(Decimal(rid)) + Ascii(" from ") + name
  }

  /** A record: its text, cut to leave a terminating zero, padded with zeros to `MSG_SIZE`. */
  function Record(rid: nat, name: Data): (b: Data)
    ensures |b| == MSG_SIZE && b[MSG_SIZE - 1] == 0
  {
    var text := Caption(rid, name);
    var n := if |text| < MSG_SIZE - 1 then |text| else MSG_SIZE - 1;
    text[..n] + seq(MSG_SIZE - n, _ => 0)
  }

  // ---------------------------------------------------------------- reading a record

  function Chars(b: Data): (s: string)
    ensures |s| == |b|
  {
    seq(|b|, i requires 0 <= i < |b| => b[i] as char)
  }

  predicate IsDigitByte(b: Byte)
  {
    '0' as int <= b <= '9' as int
  }

  /** The end of the run of digits that starts at `at`. */
  function DigitEnd(b: Data, at: nat): (e: nat)
    requires at <= |b|
    ensures at <= e <= |b| && (e < |b| ==> !IsDigitByte(b[e]))
    ensures forall k :: at <= k < e ==> IsDigitByte(b[k])
    decreases |b| - at
  {
    if at < |b| && IsDigitByte(b[at]) then DigitEnd(b, at + 1) else at
  }

  function Pow10(k: nat): (r: nat)
  {
    if k == 0 then 1 else 10 * Pow10(k - 1)
  }

  lemma {:induction false} DecimalLength(n: nat, k: nat)
    requires k > 0 && n < Pow10(k)
    ensures |Decimal(n)| <= k
  {
    if n >= 10 {
      assert k > 1;
      DecimalLength(n / 10, k - 1);
    }
  }

  lemma TenDigits(rid: nat)
    requires rid <= MAX_U32
    ensures 1 <= |Decimal(rid)| <= 10
  {
    assert Pow10(2) == 100;
    assert Pow10(4) == 10_000;
    assert Pow10(6) == 1_000_000;
    assert Pow10(8) == 100_000_000;
    assert Pow10(10) == 10_000_000_000;
    hide Pow10, Decimal;
    DecimalLength(rid, 10);
  }

  /** Where the parts of a record lie. */
  lemma RecordParts(rid: nat, name: Data)
    requires rid <= MAX_U32
    ensures var b, d := Record(rid, name), Decimal(rid);
      && 7 + |d| + 6 <= MSG_SIZE - 1
      && Chars(b[..7]) == "record " && Chars(b[7..7 + |d|]) == d && Chars(b[7 + |d|..13 + |d|]) == " from "
      && forall k :: 13 + |d| <= k < MSG_SIZE ==>
        b[k] == if k < MSG_SIZE - 1 && k - (13 + |d|) < |name| then name[k - (13 + |d|)] else 0
  {
    hide Decimal;
    TenDigits(rid);
    var b, d := Record(rid, name), Decimal(rid);
    var head := Ascii("record ") + Ascii(d) + Ascii(" from ");
    assert Caption(rid, name) == head + name;
    assert forall k :: 0 <= k < 13 + |d| ==> b[k] == head[k];
    assert forall k :: 0 <= k < |d| ==> IsDigit(d[k]);
  }

  /**
   * A record read back: it starts with "record ", the digits behind that stand for its id,
   * then come " from " and the name, as far as the slot reaches, and zeros to its end.
   */
  lemma RecordReadsBack(rid: nat, name: Data)
    requires rid <= MAX_U32
    ensures var b := Record(rid, name); var e := DigitEnd(b, 7);
      && Chars(b[..7]) == "record "
      && AllDigits(Chars(b[7..e])) && Value(Chars(b[7..e])) == rid
      && e + 6 < MSG_SIZE && Chars(b[e..e + 6]) == " from "
      && forall k :: e + 6 <= k < MSG_SIZE ==>
        b[k] == if k < MSG_SIZE - 1 && k - (e + 6) < |name| then name[k - (e + 6)] else 0
  {
    var b, d := Record(rid, name), Decimal(rid);
    RecordParts(rid, name);
    ValueOfDecimal(rid);
    hide Record, Decimal, Value;
    DigitsEndAt(b, d);
  }

  lemma DigitsEndAt(b: Data, d: string)
    requires 7 + |d| + 6 <= |b| && AllDigits(d)
    requires Chars(b[7..7 + |d|]) == d && Chars(b[7 + |d|..13 + |d|]) == " from "
    ensures DigitEnd(b, 7) == 7 + |d|
  {
    var e := DigitEnd(b, 7);
    assert forall k :: 7 <= k < 7 + |d| ==> b[k] as char == Chars(b[7..7 + |d|])[k - 7];
    assert Chars(b[7 + |d|..13 + |d|])[0] == b[7 + |d|] as char;
    assert !IsDigitByte(b[7 + |d|]);
  }

  /** No two ids share a record. */
  lemma RecordTellsId(a: nat, m: Data, b: nat, n: Data)
    requires a <= MAX_U32 && b <= MAX_U32 && Record(a, m) == Record(b, n)
    ensures a == b
  {
    hide Record;
    RecordReadsBack(a, m);
    RecordReadsBack(b, n);
  }

  // ---------------------------------------------------------------- memory

  /** `buf` with `data` written at `off`. */
  function Splice(buf: Data, off: nat, data: Data): (b: Data)
    requires off + |data| <= |buf|
    ensures |b| == |buf|
  {
    buf[..off] + data + buf[off + |data|..]
  }

  function Window(buf: Data, off: nat): (b: Data)
    requires off + MSG_SIZE <= |buf|
  {
    buf[off..off + MSG_SIZE]
  }

  lemma SpliceWindows(buf: Data, off: nat, data: Data, at: nat)
    requires off + MSG_SIZE <= |buf| && |data| == MSG_SIZE && at + MSG_SIZE <= |buf|
    ensures Window(Splice(buf, off, data), off) == data
    ensures at + MSG_SIZE <= off || off + MSG_SIZE <= at ==> Window(Splice(buf, off, data), at) == Window(buf, at)
  {
  }

  /** The smallest number of whole pages for all records of a client and the scratch slot behind them. */
  lemma BufferLayout()
    ensures SCRATCH_OFF == MAX_RECORDS * MSG_SIZE
    ensures BUF_LEN % 4096 == 0 && SCRATCH_OFF + MSG_SIZE <= BUF_LEN < SCRATCH_OFF + MSG_SIZE + 4096
  {
  }

  // ---------------------------------------------------------------- protocol state

  /** Directory entry: the client that owns a range of record ids. */
  datatype Owner = Owner(client: nat, first: nat, cnt: nat)
  {
    predicate Has(rid: nat) { first <= rid < first + cnt }
  }

  datatype Phase = Start | Allocated | Registered | AtReady | Reading | AtDone | Released
  {
    function Rank(): (r: nat)
    {
      match this
      case Start => 0 case Allocated => 1 case Registered => 2 case AtReady => 3
      case Reading => 4 case AtDone => 5 case Released => 6
    }
  }

  datatype Client = Client(
    phase: Phase,
    first: nat,
    written: nat,
    buf: Data,
    dir: seq<Owner>,
    rid: nat,
    posted: bool,
    fetched: map<nat, Data>)

  datatype State = State(clients: seq<Client>, nextRid: nat, dir: seq<Owner>, ready: nat, done: nat)

  /** The clients of a run: how many records each holds, and its name. */
  datatype Config = Config(cnts: seq<nat>, names: seq<Data>)
  {
    predicate Valid()
    {
      && 1 <= |cnts| <= MAX_CLIENTS && |names| == |cnts|
      && (forall c :: 0 <= c < |cnts| ==> 1 <= cnts[c] <= MAX_RECORDS)
    }
  }

  predicate Shaped(g: Config, s: State)
  {
    |s.clients| == |g.cnts|
  }

  function Init(g: Config): (s: State)
    ensures Shaped(g, s)
  {
    State(seq(|g.cnts|, _ => Client(Start, 0, 0, seq(BUF_LEN, _ => 0), [], 0, false, map[])), 0, [], 0, 0)
  }

  /** First directory entry that has `rid`; `|dir|` if none does. */
  function FindOwner(dir: seq<Owner>, rid: nat): (i: nat)
    ensures i <= |dir|
    ensures i < |dir| ==> dir[i].Has(rid)
    ensures forall k :: 0 <= k < i ==> !dir[k].Has(rid)
  {
    if dir == [] then 0
    else if dir[0].Has(rid) then 0
    else 1 + FindOwner(dir[1..], rid)
  }

  function Counts(dir: seq<Owner>): (cs: seq<nat>)
    ensures |cs| == |dir|
  {
    seq(|dir|, i requires 0 <= i < |dir| => dir[i].cnt)
  }

  /** Number of records a client thinks there are. */
  function Total(dir: seq<Owner>): (t: nat)
  {
    Sum(Counts(dir))
  }

  predicate Own(x: Client, cnt: nat, rid: nat)
  {
    x.first <= rid < x.first + cnt
  }

  /** The own directory entry, as the client recognises it. */
  predicate LooksLikeSelf(x: Client, cnt: nat, o: Owner)
  {
    o.first == x.first && o.cnt == cnt
  }

  /** The one-sided READ: 64 bytes of the owner's registered memory. */
  function ReadMemory(s: State, o: Owner, rid: nat): (b: Data)
    requires o.client < |s.clients| && o.Has(rid) && o.cnt <= MAX_RECORDS
    requires |s.clients[o.client].buf| == BUF_LEN
  {
    Window(s.clients[o.client].buf, (rid - o.first) * MSG_SIZE)
  }

  /** The HTTP data service of client `o`: its own range check, then the same 64 bytes. */
  function HookRecord(x: Client, cnt: nat, rid: nat): (b: seq<Byte>)
    requires |x.buf| == BUF_LEN && cnt <= MAX_RECORDS
  {
    if rid >= x.first && rid < x.first + cnt then Window(x.buf, (rid - x.first) * MSG_SIZE) else []
  }

  /** The service refuses every id outside the owner's own range. */
  lemma HookRefusesForeign(x: Client, cnt: nat, rid: nat)
    requires |x.buf| == BUF_LEN && cnt <= MAX_RECORDS
    ensures HookRecord(x, cnt, rid) != [] <==> Owner(0, x.first, cnt).Has(rid)
  {
  }

  // ---------------------------------------------------------------- steps

  datatype Action = Allocate | Push | Write | ArriveReady | GetDirectory | SkipOwn | Post | Land | ArriveDone | Free

  predicate Enabled(g: Config, s: State, c: nat, a: Action)
    requires g.Valid() && Shaped(g, s) && c < |g.cnts|
  {
    var x, cnt := s.clients[c], g.cnts[c];
    match a
    case Allocate => x.phase == Start
    case Push => x.phase == Allocated
    case Write => x.phase == Registered && x.written < cnt
    case ArriveReady => x.phase == Registered && x.written == cnt
    case GetDirectory => x.phase == AtReady && s.ready == |g.cnts|
    case SkipOwn => x.phase == Reading && !x.posted && x.rid < Total(x.dir) && Own(x, cnt, x.rid)
    case Post => x.phase == Reading && !x.posted && x.rid < Total(x.dir) && !Own(x, cnt, x.rid)
    case Land => x.phase == Reading && x.posted
    case ArriveDone => x.phase == Reading && !x.posted && x.rid >= Total(x.dir)
    case Free => x.phase == AtDone && s.done == |g.cnts|
  }

  /** The target of client `c`'s outstanding read. */
  function Target(s: State, c: nat): (o: Owner)
    requires c < |s.clients| && FindOwner(s.clients[c].dir, s.clients[c].rid) < |s.clients[c].dir|
  {
    s.clients[c].dir[FindOwner(s.clients[c].dir, s.clients[c].rid)]
  }

  /** The read can be carried out: an owner was found, and its memory is there to be addressed. */
  predicate Readable(s: State, c: nat)
    requires c < |s.clients|
  {
    var x := s.clients[c];
    && FindOwner(x.dir, x.rid) < |x.dir|
    && var o := Target(s, c);
       o.client < |s.clients| && o.cnt <= MAX_RECORDS && |s.clients[o.client].buf| == BUF_LEN
  }

  function Next(g: Config, s: State, c: nat, a: Action): (s': State)
    requires g.Valid() && Shaped(g, s) && c < |g.cnts| && Enabled(g, s, c, a)
    requires |s.clients[c].buf| == BUF_LEN
    requires a == Land ==> Readable(s, c)
    ensures Shaped(g, s')
  {
    var x := s.clients[c];
    match a
    case Allocate =>
      s.(clients := s.clients[c := x.(phase := Allocated, first := s.nextRid)], nextRid := s.nextRid + g.cnts[c])
    case Push =>
      s.(clients := s.clients[c := x.(phase := Registered)], dir := s.dir + [Owner(c, x.first, g.cnts[c])])
    case Write =>
      var buf := Splice(x.buf, x.written * MSG_SIZE, Record(x.first + x.written, g.names[c]));
      s.(clients := s.clients[c := x.(buf := buf, written := x.written + 1)])
    case ArriveReady =>
      s.(clients := s.clients[c := x.(phase := AtReady)], ready := s.ready + 1)
    case GetDirectory =>
      s.(clients := s.clients[c := x.(phase := Reading, dir := s.dir)])
    case SkipOwn =>
      s.(clients := s.clients[c := x.(rid := x.rid + 1)])
    case Post =>
      s.(clients := s.clients[c := x.(posted := true)])
    case Land =>
      var data := ReadMemory(s, Target(s, c), x.rid);
      s.(clients := s.clients[c := x.(buf := Splice(x.buf, SCRATCH_OFF, data), posted := false,
                                      fetched := x.fetched[x.rid := data], rid := x.rid + 1)])
    case ArriveDone =>
      s.(clients := s.clients[c := x.(phase := AtDone)], done := s.done + 1)
    case Free =>
      s.(clients := s.clients[c := x.(phase := Released, buf := [])])
  }

  // ---------------------------------------------------------------- the invariant

  /** One per client that has come at least as far as rank `k`. */
  function Reached(s: State, k: nat): (r: seq<nat>)
    ensures |r| == |s.clients|
  {
    seq(|s.clients|, c requires 0 <= c < |s.clients| => if s.clients[c].phase.Rank() >= k then 1 else 0)
  }

  /** Record counts of the clients that have come at least as far as rank `k`. */
  function CountsFrom(g: Config, s: State, k: nat): (r: seq<nat>)
    requires Shaped(g, s)
    ensures |r| == |s.clients|
  {
    seq(|s.clients|, c requires 0 <= c < |s.clients| => if s.clients[c].phase.Rank() >= k then g.cnts[c] else 0)
  }

  ghost predicate Far(s: State, c: nat, k: nat)
    requires c < |s.clients|
  {
    s.clients[c].phase.Rank() >= k
  }

  /** Assigned ranges partition `[0, nextRid)`. */
  ghost predicate Ranges(g: Config, s: State)
    requires Shaped(g, s)
  {
    && (forall c: nat :: c < |s.clients| && Far(s, c, 1) ==> s.clients[c].first + g.cnts[c] <= s.nextRid)
    && (forall c: nat, d: nat :: c < d < |s.clients| && Far(s, c, 1) && Far(s, d, 1) ==>
          || s.clients[c].first + g.cnts[c] <= s.clients[d].first
          || s.clients[d].first + g.cnts[d] <= s.clients[c].first)
    && (forall r: nat :: r < s.nextRid ==> HasOwner(g, s, r))
    && s.nextRid == Sum(CountsFrom(g, s, 1))
  }

  ghost predicate HasOwner(g: Config, s: State, r: nat)
    requires Shaped(g, s)
  {
    exists c: nat :: c < |s.clients| && Far(s, c, 1) && Own(s.clients[c], g.cnts[c], r)
  }

  /** The directory lists exactly the clients that registered, once each. */
  ghost predicate Directory(g: Config, s: State)
    requires Shaped(g, s)
  {
    && (forall i :: 0 <= i < |s.dir| ==> EntryOk(g, s, s.dir[i]))
    && (forall i, k :: 0 <= i < k < |s.dir| ==> s.dir[i].client != s.dir[k].client)
    && (forall c: nat :: c < |s.clients| && Far(s, c, 2) ==> Listed(s, c))
    && Total(s.dir) == Sum(CountsFrom(g, s, 2))
  }

  ghost predicate EntryOk(g: Config, s: State, o: Owner)
    requires Shaped(g, s)
  {
    && o.client < |s.clients| && Far(s, o.client, 2)
    && o == Owner(o.client, s.clients[o.client].first, g.cnts[o.client])
  }

  ghost predicate Listed(s: State, c: nat)
  {
    exists i :: 0 <= i < |s.dir| && s.dir[i].client == c
  }

  ghost predicate Barriers(g: Config, s: State)
    requires Shaped(g, s)
  {
    && s.ready == Sum(Reached(s, 3)) && s.done == Sum(Reached(s, 5))
    && (forall c: nat :: c < |s.clients| && Far(s, c, 4) ==> s.ready == |g.cnts|)
    && (forall c: nat :: c < |s.clients| && Far(s, c, 6) ==> s.done == |g.cnts|)
  }

  /** Own memory of client `c`: alive until freed, and holding the records written so far. */
  ghost predicate MemoryOk(g: Config, c: nat, x: Client)
    requires g.Valid() && c < |g.cnts|
  {
    && x.written <= g.cnts[c]
    && (x.phase.Rank() >= 3 ==> x.written == g.cnts[c])
    && (x.phase.Rank() < 2 ==> x.written == 0)
    && (if x.phase == Released then x.buf == [] else |x.buf| == BUF_LEN)
    && (x.phase != Released ==>
          forall i :: 0 <= i < x.written ==> Window(x.buf, i * MSG_SIZE) == Record(x.first + i, g.names[c]))
  }

  /** How far client `c` has read, and that what it read is right. */
  ghost predicate ReadsOk(g: Config, dir: seq<Owner>, c: nat, x: Client)
    requires g.Valid() && c < |g.cnts|
  {
    && (if x.phase.Rank() >= 4 then x.dir == dir else x.rid == 0 && x.fetched == map[] && !x.posted)
    && x.rid <= Total(dir)
    && (x.phase.Rank() >= 5 ==> x.rid == Total(dir))
    && (x.posted ==> x.phase == Reading && x.rid < Total(dir) && !Own(x, g.cnts[c], x.rid))
    && (forall r: nat :: r in x.fetched <==> r < x.rid && !Own(x, g.cnts[c], r))
    && (forall r: nat :: r in x.fetched ==> FetchedOk(g, dir, r, x.fetched[r]))
  }

  /** `data` is the record that the owner of `rid` wrote. */
  ghost predicate FetchedOk(g: Config, dir: seq<Owner>, rid: nat, data: Data)
    requires g.Valid()
  {
    var i := FindOwner(dir, rid);
    i < |dir| && dir[i].client < |g.names| && data == Record(rid, g.names[dir[i].client])
  }

  ghost predicate ClientOk(g: Config, s: State, c: nat)
    requires g.Valid() && Shaped(g, s) && c < |s.clients|
  {
    MemoryOk(g, c, s.clients[c]) && ReadsOk(g, s.dir, c, s.clients[c])
  }

  ghost predicate Inv(g: Config, s: State)
    requires g.Valid()
  {
    && Shaped(g, s) && Ranges(g, s) && Directory(g, s) && Barriers(g, s)
    && (forall c: nat :: c < |s.clients| ==> ClientOk(g, s, c))
  }

  lemma InitInv(g: Config)
    requires g.Valid()
    ensures Inv(g, Init(g))
  {
    var s := Init(g);
    hide Ranges, Directory, Barriers, Record;
    forall c: nat | c < |s.clients| ensures ClientOk(g, s, c) {
    }
    InitGroups(g);
  }

  lemma InitGroups(g: Config)
    requires g.Valid()
    ensures Ranges(g, Init(g)) && Directory(g, Init(g)) && Barriers(g, Init(g))
  {
    var s := Init(g);
    SumZero(CountsFrom(g, s, 1));
    SumZero(CountsFrom(g, s, 2));
    SumZero(Reached(s, 3));
    SumZero(Reached(s, 5));
  }

  // ---------------------------------------------------------------- barriers

  /** A barrier counter that shows everyone means everyone is there. */
  lemma AllReached(s: State, k: nat, c: nat)
    requires Sum(Reached(s, k)) == |s.clients| && c < |s.clients|
    ensures Far(s, c, k)
  {
    var ones := seq(|s.clients|, _ => 1);
    SumOnes(ones);
    SumMonotone(Reached(s, k), ones);
    assert Reached(s, k)[c] == 1;
  }

  lemma {:induction false} SumOnes(s: seq<nat>)
    requires forall i :: 0 <= i < |s| ==> s[i] == 1
    ensures Sum(s) == |s|
  {
    if s != [] {
      SumOnes(s[..|s| - 1]);
    }
  }

  /** One client's phase moves on: what that does to the counters. */
  lemma PhaseMoves(g: Config, s: State, s': State, c: nat, k: nat)
    requires g.Valid() && Shaped(g, s) && Shaped(g, s') && c < |s.clients|
    requires forall d :: 0 <= d < |s.clients| && d != c ==> s'.clients[d].phase == s.clients[d].phase
    requires s'.clients[c].phase.Rank() >= s.clients[c].phase.Rank()
    ensures var newly := !Far(s, c, k) && Far(s', c, k);
            && Sum(Reached(s', k)) == Sum(Reached(s, k)) + (if newly then 1 else 0)
            && Sum(CountsFrom(g, s', k)) == Sum(CountsFrom(g, s, k)) + (if newly then g.cnts[c] else 0)
  {
    var r, r' := Reached(s, k), Reached(s', k);
    assert r' == r[c := r'[c]];
    SumUpdate(r, c, r'[c]);
    var n, n' := CountsFrom(g, s, k), CountsFrom(g, s', k);
    assert n' == n[c := n'[c]];
    SumUpdate(n, c, n'[c]);
  }

  lemma TotalPush(dir: seq<Owner>, o: Owner)
    ensures Total(dir + [o]) == Total(dir) + o.cnt
  {
    assert Counts(dir + [o]) == Counts(dir) + [o.cnt];
    assert (Counts(dir) + [o.cnt])[..|dir|] == Counts(dir);
  }

  /** Once the ready barrier has opened, everybody is listed and the directory is final and complete. */
  lemma OpenReady(g: Config, s: State)
    requires g.Valid() && Inv(g, s) && s.ready == |g.cnts|
    ensures forall c: nat :: c < |s.clients| ==> Far(s, c, 3) && Listed(s, c) && s.clients[c].written == g.cnts[c]
    ensures Total(s.dir) == s.nextRid
  {
    forall c: nat | c < |s.clients|
      ensures Far(s, c, 3) && Listed(s, c) && s.clients[c].written == g.cnts[c]
    {
      AllReached(s, 3, c);
      assert ClientOk(g, s, c) && Far(s, c, 2);
    }
    assert CountsFrom(g, s, 1) == CountsFrom(g, s, 2);
  }

  // ---------------------------------------------------------------- each step keeps the invariant

  /** All clients but `c` are as they were. */
  ghost predicate OthersSame(s: State, s': State, c: nat)
  {
    && c < |s.clients| == |s'.clients|
    && (forall d :: 0 <= d < |s.clients| && d != c ==> s'.clients[d] == s.clients[d])
  }

  lemma RangesFrame(g: Config, s: State, s': State, c: nat)
    requires g.Valid() && Shaped(g, s) && Ranges(g, s) && OthersSame(s, s', c)
    requires s'.nextRid == s.nextRid && s'.clients[c].first == s.clients[c].first
    requires Far(s, c, 1) && Far(s', c, 1)
    ensures Ranges(g, s')
  {
    assert CountsFrom(g, s', 1) == CountsFrom(g, s, 1);
    hide HasOwner, Sum;
    forall r: nat | r < s'.nextRid ensures HasOwner(g, s', r) {
      assert HasOwner(g, s, r);
      OwnerStays(g, s, s', c, r);
    }
  }

  lemma OwnerStays(g: Config, s: State, s': State, c: nat, r: nat)
    requires Shaped(g, s) && OthersSame(s, s', c) && HasOwner(g, s, r)
    requires Far(s, c, 1) ==> Far(s', c, 1) && s'.clients[c].first == s.clients[c].first
    ensures HasOwner(g, s', r)
  {
    var d: nat :| d < |s.clients| && Far(s, d, 1) && Own(s.clients[d], g.cnts[d], r);
    assert Far(s', d, 1) && Own(s'.clients[d], g.cnts[d], r);
  }

  lemma NewOwner(g: Config, s: State, c: nat, r: nat)
    requires Shaped(g, s) && c < |s.clients| && Far(s, c, 1) && Own(s.clients[c], g.cnts[c], r)
    ensures HasOwner(g, s, r)
  {
  }

  /** A fresh range at `nextRid` extends the partition. */
  lemma AllocateApart(g: Config, s: State, s': State, c: nat, d: nat, e: nat)
    requires g.Valid() && Shaped(g, s) && Ranges(g, s) && OthersSame(s, s', c)
    requires s.clients[c].phase == Start && s'.clients[c].phase == Allocated
    requires s'.clients[c].first == s.nextRid && s'.nextRid == s.nextRid + g.cnts[c]
    requires d < e < |s'.clients| && Far(s', d, 1) && Far(s', e, 1)
    ensures || s'.clients[d].first + g.cnts[d] <= s'.clients[e].first
            || s'.clients[e].first + g.cnts[e] <= s'.clients[d].first
  {
    hide Sum, CountsFrom, HasOwner;
    assert d != c ==> Far(s, d, 1);
    assert e != c ==> Far(s, e, 1);
  }

  lemma AllocateOwner(g: Config, s: State, s': State, c: nat, r: nat)
    requires g.Valid() && Shaped(g, s) && Ranges(g, s) && OthersSame(s, s', c)
    requires s.clients[c].phase == Start && s'.clients[c].phase == Allocated
    requires s'.clients[c].first == s.nextRid && s'.nextRid == s.nextRid + g.cnts[c]
    requires r < s'.nextRid
    ensures HasOwner(g, s', r)
  {
    hide Sum, CountsFrom, HasOwner;
    if r < s.nextRid {
      assert HasOwner(g, s, r);
      OwnerStays(g, s, s', c, r);
    } else {
      NewOwner(g, s', c, r);
    }
  }

  lemma AllocateBelow(g: Config, s: State, s': State, c: nat, d: nat)
    requires g.Valid() && Shaped(g, s) && Ranges(g, s) && OthersSame(s, s', c)
    requires s.clients[c].phase == Start && s'.clients[c].phase == Allocated
    requires s'.clients[c].first == s.nextRid && s'.nextRid == s.nextRid + g.cnts[c]
    requires d < |s'.clients| && Far(s', d, 1)
    ensures s'.clients[d].first + g.cnts[d] <= s'.nextRid
  {
    hide Sum, CountsFrom, HasOwner;
    assert d != c ==> Far(s, d, 1);
  }

  lemma RangesAllocate(g: Config, s: State, s': State, c: nat)
    requires g.Valid() && Shaped(g, s) && Ranges(g, s) && OthersSame(s, s', c)
    requires s.clients[c].phase == Start && s'.clients[c].phase == Allocated
    requires s'.clients[c].first == s.nextRid && s'.nextRid == s.nextRid + g.cnts[c]
    ensures Ranges(g, s')
  {
    PhaseMoves(g, s, s', c, 1);
    assert s'.nextRid == Sum(CountsFrom(g, s', 1));
    hide Sum, CountsFrom, HasOwner, Far;
    forall d: nat | d < |s'.clients| && Far(s', d, 1)
      ensures s'.clients[d].first + g.cnts[d] <= s'.nextRid
    {
      AllocateBelow(g, s, s', c, d);
    }
    forall d: nat, e: nat | d < e < |s'.clients| && Far(s', d, 1) && Far(s', e, 1)
      ensures || s'.clients[d].first + g.cnts[d] <= s'.clients[e].first
              || s'.clients[e].first + g.cnts[e] <= s'.clients[d].first
    {
      AllocateApart(g, s, s', c, d, e);
    }
    forall r: nat | r < s'.nextRid ensures HasOwner(g, s', r) {
      AllocateOwner(g, s, s', c, r);
    }
  }

  lemma DirectoryFrame(g: Config, s: State, s': State, c: nat)
    requires g.Valid() && Shaped(g, s) && Directory(g, s) && OthersSame(s, s', c)
    requires s'.dir == s.dir && Far(s, c, 2) == Far(s', c, 2)
    requires Far(s, c, 2) ==> s'.clients[c].first == s.clients[c].first
    ensures Directory(g, s')
  {
    assert CountsFrom(g, s', 2) == CountsFrom(g, s, 2);
    hide Sum;
    forall i | 0 <= i < |s'.dir| ensures EntryOk(g, s', s'.dir[i]) {
      assert EntryOk(g, s, s.dir[i]);
    }
    forall d: nat | d < |s'.clients| && Far(s', d, 2) ensures Listed(s', d) {
      assert Far(s, d, 2) && Listed(s, d);
    }
  }

  lemma ListedGrows(s: State, s': State, d: nat)
    requires |s'.dir| == |s.dir| + 1 && s'.dir[..|s.dir|] == s.dir
    requires Listed(s, d) || s'.dir[|s.dir|].client == d
    ensures Listed(s', d)
  {
    if Listed(s, d) {
      var i :| 0 <= i < |s.dir| && s.dir[i].client == d;
      assert s'.dir[i] == s'.dir[..|s.dir|][i];
    }
  }

  /** Pushing the entry of a client that was not listed yet. */
  lemma EntriesPush(g: Config, s: State, s': State, c: nat, i: nat)
    requires g.Valid() && Shaped(g, s) && Directory(g, s) && OthersSame(s, s', c)
    requires s.clients[c].phase == Allocated && s'.clients[c].phase == Registered
    requires s'.clients[c].first == s.clients[c].first
    requires s'.dir == s.dir + [Owner(c, s.clients[c].first, g.cnts[c])] && i < |s'.dir|
    ensures EntryOk(g, s', s'.dir[i]) && (i < |s.dir| ==> s'.dir[i].client != c)
  {
    hide Sum, CountsFrom, Total, Listed;
    if i < |s.dir| {
      assert EntryOk(g, s, s.dir[i]);
    }
  }

  lemma DirectoryPush(g: Config, s: State, s': State, c: nat)
    requires g.Valid() && Shaped(g, s) && Directory(g, s) && OthersSame(s, s', c)
    requires s.clients[c].phase == Allocated && s'.clients[c].phase == Registered
    requires s'.clients[c].first == s.clients[c].first
    requires s'.dir == s.dir + [Owner(c, s.clients[c].first, g.cnts[c])]
    ensures Directory(g, s')
  {
    PhaseMoves(g, s, s', c, 2);
    TotalPush(s.dir, Owner(c, s.clients[c].first, g.cnts[c]));
    hide Sum, CountsFrom, Total, Listed;
    forall i | 0 <= i < |s'.dir| ensures EntryOk(g, s', s'.dir[i]) && (i < |s.dir| ==> s'.dir[i].client != c) {
      EntriesPush(g, s, s', c, i);
    }
    forall d: nat | d < |s'.clients| && Far(s', d, 2) ensures Listed(s', d) {
      assert d != c ==> Far(s, d, 2) && Listed(s, d);
      ListedGrows(s, s', d);
    }
  }

  /** Client `c` moves to a later phase, counted at the barrier it arrives at, if any. */
  ghost predicate MovesOn(g: Config, s: State, s': State, c: nat)
    requires Shaped(g, s)
  {
    && OthersSame(s, s', c)
    && s'.clients[c].phase.Rank() >= s.clients[c].phase.Rank()
    && s'.ready == s.ready + (if !Far(s, c, 3) && Far(s', c, 3) then 1 else 0)
    && s'.done == s.done + (if !Far(s, c, 5) && Far(s', c, 5) then 1 else 0)
    && (!Far(s, c, 4) && Far(s', c, 4) ==> Far(s, c, 3) && s.ready == |g.cnts|)
    && (!Far(s, c, 6) && Far(s', c, 6) ==> Far(s, c, 5) && s.done == |g.cnts|)
  }

  lemma BarriersStep(g: Config, s: State, s': State, c: nat)
    requires g.Valid() && Shaped(g, s) && Barriers(g, s) && MovesOn(g, s, s', c)
    ensures Barriers(g, s')
  {
    PhaseMoves(g, s, s', c, 3);
    PhaseMoves(g, s, s', c, 5);
    NoLateArrival(g, s, c);
    hide Sum, Reached, CountsFrom;
    forall d: nat | d < |s'.clients| && Far(s', d, 4) ensures s'.ready == |g.cnts| {
      assert d != c ==> Far(s, d, 4);
    }
    forall d: nat | d < |s'.clients| && Far(s', d, 6) ensures s'.done == |g.cnts| {
      assert d != c ==> Far(s, d, 6);
    }
  }

  /** While somebody has not reached a barrier, its counter is short. */
  lemma NoLateArrival(g: Config, s: State, c: nat)
    requires g.Valid() && Shaped(g, s) && Barriers(g, s) && c < |g.cnts|
    ensures !Far(s, c, 3) ==> s.ready != |g.cnts| && forall d: nat :: d < |s.clients| ==> !Far(s, d, 4)
    ensures !Far(s, c, 5) ==> s.done != |g.cnts| && forall d: nat :: d < |s.clients| ==> !Far(s, d, 6)
  {
    if !Far(s, c, 3) && s.ready == |g.cnts| {
      AllReached(s, 3, c);
    }
    if !Far(s, c, 5) && s.done == |g.cnts| {
      AllReached(s, 5, c);
    }
  }

  // ---------------------------------------------------------------- addressing

  /** The owner search never fails once the directory is out, and finds the client that owns the record. */
  lemma OwnerFound(g: Config, s: State, rid: nat)
    requires g.Valid() && Inv(g, s) && s.ready == |g.cnts| && rid < Total(s.dir)
    ensures var i := FindOwner(s.dir, rid); i < |s.dir| && EntryOk(g, s, s.dir[i])
  {
    OpenReady(g, s);
    assert HasOwner(g, s, rid);
    var c: nat :| c < |s.clients| && Far(s, c, 1) && Own(s.clients[c], g.cnts[c], rid);
    assert Listed(s, c);
    var i :| 0 <= i < |s.dir| && s.dir[i].client == c;
    assert EntryOk(g, s, s.dir[i]);
    assert s.dir[i].Has(rid);
  }

  /** Ranges are distinct enough to tell clients apart by them: only the own entry looks like self. */
  lemma SelfIsUnique(g: Config, s: State, c: nat, i: nat)
    requires g.Valid() && Inv(g, s) && c < |g.cnts| && Far(s, c, 1) && i < |s.dir|
    ensures LooksLikeSelf(s.clients[c], g.cnts[c], s.dir[i]) <==> s.dir[i].client == c
  {
    assert EntryOk(g, s, s.dir[i]);
    var d := s.dir[i].client;
    assert Far(s, d, 1);
    hide ClientOk, Directory, Barriers, Sum;
    if d < c {
      assert Far(s, d, 1) && Far(s, c, 1);
    } else if c < d {
      assert Far(s, c, 1) && Far(s, d, 1);
    }
  }

  /**
   * A read in flight is safe: its owner was found, is another client whose entry was
   * imported, has written the record, still has its memory, and the bytes are the record.
   */
  lemma ReadIsSafe(g: Config, s: State, c: nat)
    requires g.Valid() && Inv(g, s) && c < |g.cnts| && s.clients[c].posted
    ensures Readable(s, c)
    ensures var o, x := Target(s, c), s.clients[c];
            && o.Has(x.rid) && o.client != c && !LooksLikeSelf(x, g.cnts[c], o)
            && s.clients[o.client].phase != Released
            && x.rid - o.first < s.clients[o.client].written
            && ReadMemory(s, o, x.rid) == Record(x.rid, g.names[o.client])
            && HookRecord(s.clients[o.client], g.cnts[o.client], x.rid) == ReadMemory(s, o, x.rid)
  {
    hide Record, Ranges, Directory, Sum, FindOwner, Total;
    var x := s.clients[c];
    assert ClientOk(g, s, c) && Far(s, c, 4);
    OwnerFound(g, s, x.rid);
    OpenReady(g, s);
    NoLateArrival(g, s, c);
    var i := FindOwner(s.dir, x.rid);
    var o := s.dir[i];
    assert ClientOk(g, s, o.client);
    assert !Far(s, o.client, 6);
    SelfIsUnique(g, s, c, i);
  }

  // ---------------------------------------------------------------- memory and progress of one client

  /** Before the ready barrier opens, a growing directory does not concern a client. */
  lemma EarlyReadsOk(g: Config, dir: seq<Owner>, dir': seq<Owner>, c: nat, x: Client, x': Client)
    requires g.Valid() && c < |g.cnts| && ReadsOk(g, dir, c, x) && x.phase.Rank() < 4 && x'.phase.Rank() < 4
    requires x'.rid == x.rid && x'.fetched == x.fetched && x'.posted == x.posted
    ensures ReadsOk(g, dir', c, x')
  {
  }

  /** A record written into slot `k` is found there ... */
  lemma SlotWritten(buf: Data, k: nat, data: Data)
    requires |buf| == BUF_LEN && k < MAX_RECORDS && |data| == MSG_SIZE
    ensures Window(Splice(buf, k * MSG_SIZE, data), k * MSG_SIZE) == data
  {
    SpliceWindows(buf, k * MSG_SIZE, data, k * MSG_SIZE);
  }

  /** ... and an earlier slot keeps its record. */
  lemma SlotKept(buf: Data, k: nat, data: Data, i: nat)
    requires |buf| == BUF_LEN && i < k < MAX_RECORDS && |data| == MSG_SIZE
    ensures Window(Splice(buf, k * MSG_SIZE, data), i * MSG_SIZE) == Window(buf, i * MSG_SIZE)
  {
    SpliceWindows(buf, k * MSG_SIZE, data, i * MSG_SIZE);
  }

  lemma WriteSlot(buf: Data, k: nat, first: nat, name: Data)
    requires |buf| == BUF_LEN && k < MAX_RECORDS
    requires forall i :: 0 <= i < k ==> Window(buf, i * MSG_SIZE) == Record(first + i, name)
    ensures forall i :: 0 <= i < k + 1 ==>
      Window(Splice(buf, k * MSG_SIZE, Record(first + k, name)), i * MSG_SIZE) == Record(first + i, name)
  {
    hide Record, Splice, Window;
    forall i: nat | i < k + 1
      ensures Window(Splice(buf, k * MSG_SIZE, Record(first + k, name)), i * MSG_SIZE) == Record(first + i, name)
    {
      if i < k {
        SlotKept(buf, k, Record(first + k, name), i);
      } else {
        SlotWritten(buf, k, Record(first + k, name));
      }
    }
  }

  lemma WriteMemory(g: Config, c: nat, x: Client)
    requires g.Valid() && c < |g.cnts| && MemoryOk(g, c, x) && x.phase == Registered && x.written < g.cnts[c]
    ensures MemoryOk(g, c, x.(buf := Splice(x.buf, x.written * MSG_SIZE, Record(x.first + x.written, g.names[c])),
                              written := x.written + 1))
  {
    hide Record, Splice, Window;
    WriteSlot(x.buf, x.written, x.first, g.names[c]);
  }

  /** The landing zone does not overlap own records. */
  lemma LandMemory(g: Config, c: nat, x: Client, data: Data)
    requires g.Valid() && c < |g.cnts| && MemoryOk(g, c, x) && x.phase != Released && |data| == MSG_SIZE
    ensures forall i :: 0 <= i < x.written ==>
              Window(Splice(x.buf, SCRATCH_OFF, data), i * MSG_SIZE) == Record(x.first + i, g.names[c])
  {
    hide Record;
    forall i | 0 <= i < x.written
      ensures Window(Splice(x.buf, SCRATCH_OFF, data), i * MSG_SIZE) == Record(x.first + i, g.names[c])
    {
      SpliceWindows(x.buf, SCRATCH_OFF, data, i * MSG_SIZE);
    }
  }

  lemma LandReads(g: Config, dir: seq<Owner>, c: nat, x: Client, x': Client, data: Data)
    requires g.Valid() && c < |g.cnts| && ReadsOk(g, dir, c, x) && x.posted && FetchedOk(g, dir, x.rid, data)
    requires x' == x.(buf := x'.buf, posted := false, fetched := x.fetched[x.rid := data], rid := x.rid + 1)
    ensures ReadsOk(g, dir, c, x')
  {
    hide FetchedOk;
  }

  // ---------------------------------------------------------------- whole runs

  lemma FinishStep(g: Config, s: State, s': State, c: nat)
    requires g.Valid() && Inv(g, s) && Shaped(g, s') && Ranges(g, s') && Directory(g, s') && MovesOn(g, s, s', c)
    requires ClientOk(g, s', c) && (s'.dir == s.dir || !Far(s, c, 3))
    ensures Inv(g, s')
  {
    BarriersStep(g, s, s', c);
    NoLateArrival(g, s, c);
    hide Ranges, Directory, Barriers, MemoryOk, ReadsOk;
    forall d: nat | d < |s'.clients| ensures ClientOk(g, s', d) {
      if d != c {
        assert ClientOk(g, s, d);
        if s'.dir != s.dir {
          assert !Far(s, d, 4);
          EarlyReadsOk(g, s.dir, s'.dir, d, s.clients[d], s.clients[d]);
        }
      }
    }
  }

  lemma AllocateInv(g: Config, s: State, c: nat)
    requires g.Valid() && Inv(g, s) && c < |g.cnts| && Enabled(g, s, c, Allocate) && |s.clients[c].buf| == BUF_LEN
    ensures Inv(g, Next(g, s, c, Allocate))
  {
    hide Ranges, Directory, Barriers, ReadsOk, Sum;
    var s' := Next(g, s, c, Allocate);
    assert ClientOk(g, s, c);
    EarlyReadsOk(g, s.dir, s.dir, c, s.clients[c], s'.clients[c]);
    RangesAllocate(g, s, s', c);
    DirectoryFrame(g, s, s', c);
    FinishStep(g, s, s', c);
  }

  lemma PushInv(g: Config, s: State, c: nat)
    requires g.Valid() && Inv(g, s) && c < |g.cnts| && Enabled(g, s, c, Push) && |s.clients[c].buf| == BUF_LEN
    ensures Inv(g, Next(g, s, c, Push))
  {
    hide Ranges, Directory, Barriers, ReadsOk, Sum;
    var s' := Next(g, s, c, Push);
    assert ClientOk(g, s, c);
    EarlyReadsOk(g, s.dir, s'.dir, c, s.clients[c], s'.clients[c]);
    RangesFrame(g, s, s', c);
    DirectoryPush(g, s, s', c);
    FinishStep(g, s, s', c);
  }

  lemma WriteInv(g: Config, s: State, c: nat)
    requires g.Valid() && Inv(g, s) && c < |g.cnts| && Enabled(g, s, c, Write) && |s.clients[c].buf| == BUF_LEN
    ensures Inv(g, Next(g, s, c, Write))
  {
    hide Ranges, Directory, Barriers, MemoryOk, ReadsOk, Sum, Record, Splice;
    var s' := Next(g, s, c, Write);
    assert ClientOk(g, s, c);
    WriteMemory(g, c, s.clients[c]);
    EarlyReadsOk(g, s.dir, s.dir, c, s.clients[c], s'.clients[c]);
    RangesFrame(g, s, s', c);
    DirectoryFrame(g, s, s', c);
    FinishStep(g, s, s', c);
  }

  lemma LandInv(g: Config, s: State, c: nat)
    requires g.Valid() && Inv(g, s) && c < |g.cnts| && Enabled(g, s, c, Land)
    requires |s.clients[c].buf| == BUF_LEN && Readable(s, c)
    ensures Inv(g, Next(g, s, c, Land))
  {
    hide Ranges, Directory, Barriers, ReadsOk, Sum, Record, Splice, Window, FindOwner;
    var s', x := Next(g, s, c, Land), s.clients[c];
    assert ClientOk(g, s, c);
    ReadIsSafe(g, s, c);
    var data := ReadMemory(s, Target(s, c), x.rid);
    hide ReadMemory;
    LandMemory(g, c, x, data);
    assert x.dir == s.dir by { PostedKnowsDirectory(g, s.dir, c, x); }
    LandReads(g, s.dir, c, x, s'.clients[c], data);
    RangesFrame(g, s, s', c);
    DirectoryFrame(g, s, s', c);
    FinishStep(g, s, s', c);
  }

  lemma PostedKnowsDirectory(g: Config, dir: seq<Owner>, c: nat, x: Client)
    requires g.Valid() && c < |g.cnts| && ReadsOk(g, dir, c, x) && x.phase.Rank() >= 4
    ensures x.dir == dir
  {
  }

  /** Arriving, reading the directory, skipping, posting, leaving: memory and ids stay as they are. */
  lemma MoveClientOk(g: Config, s: State, c: nat, a: Action)
    requires g.Valid() && Shaped(g, s) && c < |g.cnts| && ClientOk(g, s, c)
    requires Enabled(g, s, c, a) && |s.clients[c].buf| == BUF_LEN
    requires a == ArriveReady || a == GetDirectory || a == SkipOwn || a == Post || a == ArriveDone || a == Free
    ensures ClientOk(g, Next(g, s, c, a), c)
  {
    hide Record, Window, FetchedOk, FindOwner, Total;
  }

  lemma MoveInv(g: Config, s: State, c: nat, a: Action)
    requires g.Valid() && Inv(g, s) && c < |g.cnts| && Enabled(g, s, c, a) && |s.clients[c].buf| == BUF_LEN
    requires a == ArriveReady || a == GetDirectory || a == SkipOwn || a == Post || a == ArriveDone || a == Free
    ensures Inv(g, Next(g, s, c, a))
  {
    hide Ranges, Directory, Barriers, ClientOk, MemoryOk, ReadsOk, Total;
    var s' := Next(g, s, c, a);
    assert ClientOk(g, s, c);
    MoveClientOk(g, s, c, a);
    RangesFrame(g, s, s', c);
    DirectoryFrame(g, s, s', c);
    FinishStep(g, s, s', c);
  }

  /** Every enabled action can be carried out, and keeps the invariant. */
  lemma StepInv(g: Config, s: State, c: nat, a: Action)
    requires g.Valid() && Inv(g, s) && c < |g.cnts| && Enabled(g, s, c, a)
    ensures |s.clients[c].buf| == BUF_LEN && (a == Land ==> Readable(s, c))
    ensures Inv(g, Next(g, s, c, a))
  {
    hide Ranges, Directory, Barriers, Next;
    assert ClientOk(g, s, c);
    match a
    case Allocate => AllocateInv(g, s, c);
    case Push => PushInv(g, s, c);
    case Write => WriteInv(g, s, c);
    case Land =>
      ReadIsSafe(g, s, c);
      LandInv(g, s, c);
    case _ => MoveInv(g, s, c, a);
  }

  ghost predicate Step(g: Config, s: State, move: (nat, Action), s': State)
    requires g.Valid() && Shaped(g, s)
  {
    && move.0 < |g.cnts| && Enabled(g, s, move.0, move.1)
    && |s.clients[move.0].buf| == BUF_LEN && (move.1 == Land ==> Readable(s, move.0))
    && s' == Next(g, s, move.0, move.1)
  }

  /** Any interleaving of the clients' steps. */
  ghost predicate Run(g: Config, trace: seq<State>, moves: seq<(nat, Action)>)
    requires g.Valid()
  {
    && |trace| == |moves| + 1 && trace[0] == Init(g)
    && (forall i :: 0 <= i < |trace| ==> Shaped(g, trace[i]))
    && (forall i :: 0 <= i < |moves| ==> Step(g, trace[i], moves[i], trace[i + 1]))
  }

  lemma {:induction false} RunInv(g: Config, trace: seq<State>, moves: seq<(nat, Action)>, t: nat)
    requires g.Valid() && Run(g, trace, moves) && t < |trace|
    ensures Inv(g, trace[t])
  {
    hide Inv, Next, Enabled, Readable, Init;
    if t == 0 {
      InitInv(g);
    } else {
      RunInv(g, trace, moves, t - 1);
      assert Step(g, trace[t - 1], moves[t - 1], trace[t]);
      StepInv(g, trace[t - 1], moves[t - 1].0, moves[t - 1].1);
    }
  }

  /**
   * No record is read before its owner wrote it, and no owner's memory goes away under an
   * outstanding read; the bytes in flight are the record, over URMA and over the HTTP hook.
   */
  lemma EveryReadIsSafe(g: Config, trace: seq<State>, moves: seq<(nat, Action)>, t: nat, c: nat)
    requires g.Valid() && Run(g, trace, moves) && t < |trace| && c < |g.cnts| && trace[t].clients[c].posted
    ensures Readable(trace[t], c)
    ensures var s := trace[t]; var o, x := Target(s, c), s.clients[c];
            && o.Has(x.rid) && o.client != c && !LooksLikeSelf(x, g.cnts[c], o)
            && s.clients[o.client].phase != Released
            && x.rid - o.first < s.clients[o.client].written
            && ReadMemory(s, o, x.rid) == Record(x.rid, g.names[o.client])
            && HookRecord(s.clients[o.client], g.cnts[o.client], x.rid) == ReadMemory(s, o, x.rid)
  {
    RunInv(g, trace, moves, t);
    hide Run, Inv;
    ReadIsSafe(g, trace[t], c);
  }

  /** Memory is freed only when every client has finished all its reads. */
  lemma FreedOnlyAtTheEnd(g: Config, trace: seq<State>, moves: seq<(nat, Action)>, t: nat, c: nat, d: nat)
    requires g.Valid() && Run(g, trace, moves) && t < |trace| && c < |g.cnts| && d < |g.cnts|
    requires trace[t].clients[c].phase == Released
    ensures Far(trace[t], d, 5) && !trace[t].clients[d].posted && trace[t].clients[c].buf == []
  {
    RunInv(g, trace, moves, t);
    var s := trace[t];
    assert Far(s, c, 6);
    AllReached(s, 5, d);
    assert ClientOk(g, s, d) && ClientOk(g, s, c);
  }

  /** All clients that have a directory have the same one, and it lists every client exactly once. */
  lemma DirectoriesAgree(g: Config, trace: seq<State>, moves: seq<(nat, Action)>, t: nat, c: nat)
    requires g.Valid() && Run(g, trace, moves) && t < |trace| && c < |g.cnts| && Far(trace[t], c, 4)
    ensures var s := trace[t]; var dir := s.clients[c].dir;
            && (forall d: nat :: d < |g.cnts| && Far(s, d, 4) ==> s.clients[d].dir == dir)
            && (forall d: nat :: d < |g.cnts| ==>
                  exists i :: 0 <= i < |dir| && dir[i] == Owner(d, s.clients[d].first, g.cnts[d]))
            && (forall i, k :: 0 <= i < k < |dir| ==> dir[i].client != dir[k].client)
            && (forall i :: 0 <= i < |dir| ==> dir[i].client < |g.cnts|)
  {
    RunInv(g, trace, moves, t);
    var s := trace[t];
    OpenReady(g, s);
    hide Run, Ranges, Barriers;
    forall d: nat | d < |g.cnts| && Far(s, d, 4) ensures s.clients[d].dir == s.dir {
      assert ClientOk(g, s, d);
    }
    forall d: nat | d < |g.cnts|
      ensures exists i :: 0 <= i < |s.dir| && s.dir[i] == Owner(d, s.clients[d].first, g.cnts[d])
    {
      assert Listed(s, d);
      var i :| 0 <= i < |s.dir| && s.dir[i].client == d;
      assert EntryOk(g, s, s.dir[i]);
    }
  }

  /** In any registration order the assigned ranges partition the record ids, which never overflow. */
  lemma RangesPartition(g: Config, trace: seq<State>, moves: seq<(nat, Action)>, t: nat, rid: nat)
    requires g.Valid() && Run(g, trace, moves) && t < |trace| && rid < trace[t].nextRid
    ensures var s := trace[t];
            && (exists c: nat :: c < |g.cnts| && Far(s, c, 1) && Own(s.clients[c], g.cnts[c], rid))
            && (forall c: nat, d: nat ::
                  (c < |g.cnts| && d < |g.cnts| && Far(s, c, 1) && Far(s, d, 1)
                   && Own(s.clients[c], g.cnts[c], rid) && Own(s.clients[d], g.cnts[d], rid)) ==> c == d)
            && s.nextRid <= 1024
  {
    RunInv(g, trace, moves, t);
    var s := trace[t];
    hide Run, Directory, Barriers, ClientOk;
    assert HasOwner(g, s, rid);
    SumAtMost(CountsFrom(g, s, 1), MAX_RECORDS);
    assert |s.clients| * MAX_RECORDS <= MAX_CLIENTS * MAX_RECORDS;
  }

  /** A client that has reached the done barrier has fetched exactly all foreign records, each right. */
  lemma FetchesEverything(g: Config, trace: seq<State>, moves: seq<(nat, Action)>, t: nat, c: nat, rid: nat)
    requires g.Valid() && Run(g, trace, moves) && t < |trace| && c < |g.cnts| && Far(trace[t], c, 5)
    ensures var s := trace[t]; var x := s.clients[c];
            && (rid in x.fetched <==> rid < s.nextRid && !Own(x, g.cnts[c], rid))
            && (rid in x.fetched ==> exists d: nat :: d < |g.cnts| && d != c && Own(s.clients[d], g.cnts[d], rid)
                                               && x.fetched[rid] == Record(rid, g.names[d]))
  {
    RunInv(g, trace, moves, t);
    var s := trace[t];
    var x := s.clients[c];
    assert Far(s, c, 4) && ClientOk(g, s, c);
    OpenReady(g, s);
    if rid in x.fetched {
      assert FetchedOk(g, s.dir, rid, x.fetched[rid]);
      OwnerFound(g, s, rid);
      var d := s.dir[FindOwner(s.dir, rid)].client;
      assert Own(s.clients[d], g.cnts[d], rid);
    }
  }

  /** What was fetched under an id names that id, so no two fetched records are the same. */
  lemma FetchedTellsId(g: Config, trace: seq<State>, moves: seq<(nat, Action)>, t: nat, c: nat, rid: nat)
    requires g.Valid() && Run(g, trace, moves) && t < |trace| && c < |g.cnts| && Far(trace[t], c, 5)
    requires rid in trace[t].clients[c].fetched
    ensures var b := trace[t].clients[c].fetched[rid];
      |b| == MSG_SIZE && AllDigits(Chars(b[7..DigitEnd(b, 7)])) && Value(Chars(b[7..DigitEnd(b, 7)])) == rid
  {
    hide Step, Record, DigitEnd, Value;
    FetchesEverything(g, trace, moves, t, c, rid);
    RangesPartition(g, trace, moves, t, rid);
    var s := trace[t];
    var d: nat :| d < |g.cnts| && d != c && Own(s.clients[d], g.cnts[d], rid)
      && s.clients[c].fetched[rid] == Record(rid, g.names[d]);
    RecordReadsBack(rid, g.names[d]);
  }

  /** Nobody waits forever: until everyone is released, somebody can move. */
  lemma NoDeadlock(g: Config, trace: seq<State>, moves: seq<(nat, Action)>, t: nat, c: nat) returns (d: nat, a: Action)
    requires g.Valid() && Run(g, trace, moves) && t < |trace|
    requires c < |g.cnts| && trace[t].clients[c].phase != Released
    ensures d < |g.cnts| && Enabled(g, trace[t], d, a)
  {
    hide Run, Ranges, Directory, ClientOk, MemoryOk, ReadsOk, Sum, Reached, Total;
    RunInv(g, trace, moves, t);
    var s := trace[t];
    if early: nat :| early < |g.cnts| && !Far(s, early, 3) {
      d := early;
      WrittenBounded(g, s, d);
      var x := s.clients[d];
      a := if x.phase == Start then Allocate
           else if x.phase == Allocated then Push
           else if x.written < g.cnts[d] then Write
           else ArriveReady;
    } else if reading: nat :| reading < |g.cnts| && !Far(s, reading, 5) {
      AllHere(s, 3);
      assert Far(s, reading, 3);
      d := reading;
      var x := s.clients[d];
      a := if x.phase == AtReady then GetDirectory
           else if x.posted then Land
           else if x.rid >= Total(x.dir) then ArriveDone
           else if Own(x, g.cnts[d], x.rid) then SkipOwn
           else Post;
    } else {
      AllHere(s, 5);
      assert Far(s, c, 5);
      d, a := c, Free;
    }
  }

  lemma WrittenBounded(g: Config, s: State, c: nat)
    requires g.Valid() && Inv(g, s) && c < |g.cnts|
    ensures s.clients[c].written <= g.cnts[c]
  {
    assert ClientOk(g, s, c);
  }

  lemma AllHere(s: State, k: nat)
    requires forall c: nat :: c < |s.clients| ==> Far(s, c, k)
    ensures Sum(Reached(s, k)) == |s.clients|
  {
    forall i | 0 <= i < |s.clients| ensures Reached(s, k)[i] == 1 {
      assert Far(s, i, k);
    }
    SumOnes(Reached(s, k));
  }

  // ---------------------------------------------------------------- every run ends

  /** How many steps a client has made, at least. */
  function Steps(x: Client): (k: nat)
  {
    x.phase.Rank() + x.written + 2 * x.rid + (if x.posted then 1 else 0)
  }

  function AllSteps(s: State): (k: seq<nat>)
    ensures |k| == |s.clients|
  {
    seq(|s.clients|, c requires 0 <= c < |s.clients| => Steps(s.clients[c]))
  }

  lemma StepsGrow(g: Config, s: State, c: nat, a: Action)
    requires g.Valid() && Shaped(g, s) && c < |g.cnts| && Enabled(g, s, c, a)
    requires |s.clients[c].buf| == BUF_LEN && (a == Land ==> Readable(s, c))
    ensures Steps(Next(g, s, c, a).clients[c]) > Steps(s.clients[c])
    ensures Next(g, s, c, a).clients == s.clients[c := Next(g, s, c, a).clients[c]]
  {
    hide Record, Splice, Window, Readable, FindOwner, Total;
  }

  lemma StepCounts(g: Config, s: State, c: nat, a: Action)
    requires g.Valid() && Shaped(g, s) && c < |g.cnts| && Enabled(g, s, c, a)
    requires |s.clients[c].buf| == BUF_LEN && (a == Land ==> Readable(s, c))
    ensures Sum(AllSteps(Next(g, s, c, a))) > Sum(AllSteps(s))
  {
    hide Next, Enabled, Readable, Steps;
    StepsGrow(g, s, c, a);
    var before, after := AllSteps(s), AllSteps(Next(g, s, c, a));
    assert after == before[c := after[c]];
    SumUpdate(before, c, after[c]);
  }

  const MOST_STEPS := 7 + MAX_RECORDS + 2 * (MAX_CLIENTS * MAX_RECORDS)

  lemma StepsBounded(g: Config, s: State, c: nat)
    requires g.Valid() && Inv(g, s) && c < |g.cnts|
    ensures Steps(s.clients[c]) <= MOST_STEPS
  {
    hide Ranges, Barriers, Total, FindOwner, FetchedOk, Record, Window;
    assert ClientOk(g, s, c);
    SumAtMost(CountsFrom(g, s, 2), MAX_RECORDS);
    assert |s.clients| * MAX_RECORDS <= MAX_CLIENTS * MAX_RECORDS;
  }

  /** Every run is finite: with `NoDeadlock`, it ends with every client released. */
  lemma {:induction false} RunsAreBounded(g: Config, trace: seq<State>, moves: seq<(nat, Action)>)
    requires g.Valid() && Run(g, trace, moves)
    ensures |moves| <= Sum(AllSteps(trace[|moves|])) <= |g.cnts| * MOST_STEPS
    decreases |moves|
  {
    hide Inv, Next, Enabled, Readable, Steps;
    RunInv(g, trace, moves, |moves|);
    var s := trace[|moves|];
    forall c: nat | c < |g.cnts| ensures AllSteps(s)[c] <= MOST_STEPS {
      StepsBounded(g, s, c);
    }
    SumAtMost(AllSteps(s), MOST_STEPS);
    if moves != [] {
      var last := |moves| - 1;
      RunsAreBounded(g, trace[..|moves|], moves[..last]);
      assert trace[..|moves|][last] == trace[last];
      assert Step(g, trace[last], moves[last], s);
      StepCounts(g, trace[last], moves[last].0, moves[last].1);
    }
  }

  // ---------------------------------------------------------------- writing the records

  /** The client's own loop: zero each slot, then copy the text, in place. */
  method WriteRecords(buf: array<Byte>, first: nat, cnt: nat, name: Data)
    requires buf.Length == BUF_LEN && cnt <= MAX_RECORDS
    modifies buf
    ensures forall i :: 0 <= i < cnt ==> Window(buf[..], i * MSG_SIZE) == Record(first + i, name)
    ensures buf[cnt * MSG_SIZE..] == old(buf[cnt * MSG_SIZE..])
  {
    for i := 0 to cnt
      invariant forall k :: 0 <= k < i ==> Window(buf[..], k * MSG_SIZE) == Record(first + k, name)
      invariant buf[i * MSG_SIZE..] == old(buf[i * MSG_SIZE..])
    {
      ghost var before := buf[..];
      var off := i * MSG_SIZE;
      WriteOne(buf, off, first + i, name);
      assert buf[..] == Splice(before, off, Record(first + i, name));
      WriteSlot(before, i, first, name);
      assert buf[off + MSG_SIZE..] == before[off + MSG_SIZE..];
      assert old(buf[..])[off..][MSG_SIZE..] == old(buf[..])[off + MSG_SIZE..];
      assert before[off..][MSG_SIZE..] == before[off + MSG_SIZE..];
    }
  }

  method WriteOne(buf: array<Byte>, off: nat, rid: nat, name: Data)
    requires off + MSG_SIZE <= buf.Length
    modifies buf
    ensures buf[..] == Splice(old(buf[..]), off, Record(rid, name))
  {
    hide Caption;
    var text := Caption(rid, name);
    var n := if |text| < MSG_SIZE - 1 then |text| else MSG_SIZE - 1;
    hide Splice, Record;
    for k := 0 to MSG_SIZE
      invariant buf[..off] == old(buf[..off]) && buf[off + MSG_SIZE..] == old(buf[off + MSG_SIZE..])
      invariant forall i :: off <= i < off + k ==> buf[i] == 0
    {
      buf[off + k] := 0;
    }
    for k := 0 to n
      invariant buf[..off] == old(buf[..off]) && buf[off + MSG_SIZE..] == old(buf[off + MSG_SIZE..])
      invariant buf[off..off + k] == text[..k]
      invariant forall i :: off + k <= i < off + MSG_SIZE ==> buf[i] == 0
    {
      buf[off + k] := text[k];
    }
    RecordFilled(rid, name, buf[off..off + MSG_SIZE], n);
    SpliceParts(old(buf[..]), off, Record(rid, name), buf[..]);
  }

  lemma RecordFilled(rid: nat, name: Data, b: Data, n: nat)
    requires n == if |Caption(rid, name)| < MSG_SIZE - 1 then |Caption(rid, name)| else MSG_SIZE - 1
    requires |b| == MSG_SIZE && b[..n] == Caption(rid, name)[..n] && forall i :: n <= i < MSG_SIZE ==> b[i] == 0
    ensures b == Record(rid, name)
  {
    hide Caption;
    assert b == b[..n] + b[n..];
    assert b[n..] == seq(MSG_SIZE - n, _ => 0);
  }

  lemma SpliceParts(was: Data, off: nat, data: Data, b: Data)
    requires off + |data| <= |was| == |b|
    requires b[..off] == was[..off] && b[off..off + |data|] == data && b[off + |data|..] == was[off + |data|..]
    ensures b == Splice(was, off, data)
  {
    assert b == b[..off] + b[off..off + |data|] + b[off + |data|..];
  }
}
