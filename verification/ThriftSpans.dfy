/** Where the corruption tool finds integers, and what writing over one of them changes. */
module ThriftSpans {
  import opened Bits
  import opened Thrift
  import opened ThriftGrammar

  /** An integer's field ids from the outermost struct, its bytes, and its value. */
  datatype Span = Span(path: seq<int>, from: nat, to: nat, value: int)

  /** The integers of the struct at `s`, which starts at position `at`, in the order they are read. */
  function Spans(prefix: seq<int>, at: nat, last: int, s: seq<byte>): (r: Read<seq<Span>>)
    ensures r.Got? ==> 1 <= r.used <= |s|
    decreases |s|, 0
  {
    if s == [] then Fail(IndexError)
    else if s[0] == 0 then Got([], 1)
    else
      match ReadFieldHead(last, s)
      case Fail(e) => Fail(e)
      case Got(head, used) =>
        match SpansIn(prefix + [head.fid], at + used, head.ft, Drop(s, used))
        case Fail(e) => Fail(e)
        case Got(own, more) =>
          match Spans(prefix, at + used + more, head.fid, Drop(s, used + more))
          case Got(rest, last) => Got(own + rest, used + more + last)
          case Fail(e) => Fail(e)
  }

  function SpansIn(path: seq<int>, at: nat, t: Tag, s: seq<byte>): Read<seq<Span>>
    decreases |s|, 1
  {
    if IsBool(t) then Got([], 0)
    else if IsInt(t) then
      match ReadVarint(s)
      case Got(n, used) => Got([Span(path, at, at + used, Unzigzag(n))], used)
      case Fail(e) => Fail(e)
    else if t == T_STRUCT then Spans(path, at, 0, s)
    else if t == T_BINARY then
      match ReadVarint(s)
      case Got(n, used) => Got([], used + n)
      case Fail(e) => Fail(e)
    else if t == T_BYTE then Got([], 1)
    else if t == T_DOUBLE then Got([], 8)
    else Fail(UnsupportedType)
  }

  // ---- The scan with spans is the scan ----

  predicate SameEnd<T, U>(a: Read<T>, b: Read<U>) {
    (a.Got? <==> b.Got?) && (a.Got? ==> a.used == b.used)
  }

  lemma {:induction false} SpansScan(prefix: seq<int>, at: nat, out: map<int, Scanned>, last: int, s: seq<byte>)
    ensures SameEnd(Spans(prefix, at, last, s), Scan(out, last, s))
    decreases |s|, 0
  {
    hide ReadFieldHead, SpansIn, ScanValue, Recorded, Spans, Scan, Drop;
    SpansStep(prefix, at, last, s);
    ScanStep(out, last, s);
    if s != [] && s[0] != 0 && ReadFieldHead(last, s).Got? {
      var head := ReadFieldHead(last, s);
      HeadInside(last, s);
      var own := ScanValue(head.v.ft, Drop(s, head.used));
      DropShorter(s, head.used);
      SpansInScan(prefix + [head.v.fid], at + head.used, head.v.ft, Drop(s, head.used));
      if own.Got? {
        DropShorter(s, head.used + own.used);
        SpansScan(prefix, at + head.used + own.used, Recorded(out, head.v.fid, own.v), head.v.fid, Drop(s, head.used + own.used));
      }
    }
  }

  lemma DropShorter(s: seq<byte>, k: nat)
    requires s != [] && k > 0
    ensures |Drop(s, k)| < |s|
  {
  }

  function SpansAfter(prefix: seq<int>, at: nat, s: seq<byte>, head: FieldHead, used: nat): Read<seq<Span>> {
    match SpansIn(prefix + [head.fid], at + used, head.ft, Drop(s, used))
    case Fail(e) => Fail(e)
    case Got(own, more) =>
      match Spans(prefix, at + used + more, head.fid, Drop(s, used + more))
      case Got(rest, last) => Got(own + rest, used + more + last)
      case Fail(e) => Fail(e)
  }

  lemma SpansStep(prefix: seq<int>, at: nat, last: int, s: seq<byte>)
    ensures s == [] ==> Spans(prefix, at, last, s) == Fail(IndexError)
    ensures s != [] && s[0] == 0 ==> Spans(prefix, at, last, s) == Got([], 1)
    ensures s != [] && s[0] != 0 && ReadFieldHead(last, s).Fail? ==> Spans(prefix, at, last, s).Fail?
    ensures s != [] && s[0] != 0 && ReadFieldHead(last, s).Got? ==>
      Spans(prefix, at, last, s) == SpansAfter(prefix, at, s, ReadFieldHead(last, s).v, ReadFieldHead(last, s).used)
  {
    hide ReadFieldHead, SpansIn, Drop;
  }

  function ScanAfter(out: map<int, Scanned>, s: seq<byte>, head: FieldHead, used: nat): Read<map<int, Scanned>> {
    match ScanValue(head.ft, Drop(s, used))
    case Fail(e) => Fail(e)
    case Got(v, more) =>
      match Scan(Recorded(out, head.fid, v), head.fid, Drop(s, used + more))
      case Got(dict, rest) => Got(dict, used + more + rest)
      case Fail(e) => Fail(e)
  }

  lemma ScanStep(out: map<int, Scanned>, last: int, s: seq<byte>)
    ensures s == [] ==> Scan(out, last, s) == Fail(IndexError)
    ensures s != [] && s[0] == 0 ==> Scan(out, last, s) == Got(out, 1)
    ensures s != [] && s[0] != 0 && ReadFieldHead(last, s).Fail? ==> Scan(out, last, s).Fail?
    ensures s != [] && s[0] != 0 && ReadFieldHead(last, s).Got? ==>
      Scan(out, last, s) == ScanAfter(out, s, ReadFieldHead(last, s).v, ReadFieldHead(last, s).used)
  {
    hide ReadFieldHead, ScanValue, Recorded, Drop;
  }

  lemma {:induction false} SpansInScan(path: seq<int>, at: nat, t: Tag, s: seq<byte>)
    ensures SameEnd(SpansIn(path, at, t, s), ScanValue(t, s))
    decreases |s|, 1
  {
    hide ReadVarint, Spans, Scan;
    if t == T_STRUCT { SpansScan(path, at, map[], 0, s); }
  }

  // ---- Reading looks at the bytes it uses, and at no others ----

  predicate SameStart(a: seq<byte>, b: seq<byte>, n: nat) {
    n <= |a| && n <= |b| && a[..n] == b[..n]
  }

  lemma StartTail(a: seq<byte>, b: seq<byte>, n: nat, k: nat)
    requires SameStart(a, b, n) && k <= n
    ensures SameStart(Drop(a, k), Drop(b, k), n - k) && SameStart(a, b, k)
    ensures k < n ==> a[k] == b[k]
  {
    assert Drop(a, k)[..n - k] == a[..n][k..] && Drop(b, k)[..n - k] == b[..n][k..];
    assert a[..k] == a[..n][..k] && b[..k] == b[..n][..k];
    if k < n { assert a[..n][k] == a[k] && b[..n][k] == b[k]; }
  }

  lemma {:induction false} VarintStart(a: seq<byte>, b: seq<byte>)
    requires ReadVarint(a).Got? && SameStart(a, b, ReadVarint(a).used)
    ensures ReadVarint(b) == ReadVarint(a)
  {
    StartTail(a, b, ReadVarint(a).used, 0);
    if a[0] >= 128 {
      StartTail(a, b, ReadVarint(a).used, 1);
      assert Drop(a, 1) == a[1..] && Drop(b, 1) == b[1..];
      VarintStart(a[1..], b[1..]);
    }
  }

  lemma HeadStart(last: int, a: seq<byte>, b: seq<byte>)
    requires a != [] && a[0] != 0 && ReadFieldHead(last, a).Got? && SameStart(a, b, ReadFieldHead(last, a).used)
    ensures b != [] && b[0] == a[0] && ReadFieldHead(last, b) == ReadFieldHead(last, a)
  {
    hide ReadVarint;
    var used := ReadFieldHead(last, a).used;
    StartTail(a, b, used, 0);
    if a[0] / 16 == 0 {
      StartTail(a, b, used, 1);
      assert Drop(a, 1) == a[1..] && Drop(b, 1) == b[1..];
      VarintStart(a[1..], b[1..]);
    }
  }

  /** One field of the scan, and the rest. */
  lemma FieldOfSpans(prefix: seq<int>, at: nat, last: int, s: seq<byte>)
      returns (head: Read<FieldHead>, own: Read<seq<Span>>, rest: Read<seq<Span>>)
    requires s != [] && s[0] != 0 && Spans(prefix, at, last, s).Got?
    ensures head == ReadFieldHead(last, s) && head.Got? && 1 <= head.used <= |s|
    ensures own == SpansIn(prefix + [head.v.fid], at + head.used, head.v.ft, Drop(s, head.used)) && own.Got?
    ensures rest == Spans(prefix, at + head.used + own.used, head.v.fid, Drop(s, head.used + own.used)) && rest.Got?
    ensures Spans(prefix, at, last, s) == Got(own.v + rest.v, head.used + own.used + rest.used)
    ensures head.used + own.used + rest.used <= |s| && own.used <= |Drop(s, head.used)| < |s|
    ensures |Drop(s, head.used + own.used)| < |s| && rest.used <= |Drop(s, head.used + own.used)|
    ensures |Drop(s, head.used)| == |s| - head.used && |Drop(s, head.used + own.used)| == |s| - head.used - own.used
  {
    hide ReadFieldHead, SpansIn, Spans;
    HeadInside(last, s);
    SpansStep(prefix, at, last, s);
    head := ReadFieldHead(last, s);
    own := SpansIn(prefix + [head.v.fid], at + head.used, head.v.ft, Drop(s, head.used));
    rest := Spans(prefix, at + head.used + own.used, head.v.fid, Drop(s, head.used + own.used));
  }

  lemma SpansUnfold(prefix: seq<int>, at: nat, last: int, s: seq<byte>, head: Read<FieldHead>, own: Read<seq<Span>>, rest: Read<seq<Span>>)
    requires s != [] && s[0] != 0 && head == ReadFieldHead(last, s) && head.Got?
    requires own == SpansIn(prefix + [head.v.fid], at + head.used, head.v.ft, Drop(s, head.used)) && own.Got?
    requires rest == Spans(prefix, at + head.used + own.used, head.v.fid, Drop(s, head.used + own.used)) && rest.Got?
    ensures Spans(prefix, at, last, s) == Got(own.v + rest.v, head.used + own.used + rest.used)
  {
    hide ReadFieldHead, SpansIn, Spans, Drop;
    SpansStep(prefix, at, last, s);
  }

  lemma {:induction false} SpansStart(prefix: seq<int>, at: nat, last: int, a: seq<byte>, b: seq<byte>)
    requires Spans(prefix, at, last, a).Got? && SameStart(a, b, Spans(prefix, at, last, a).used)
    ensures Spans(prefix, at, last, b) == Spans(prefix, at, last, a)
    decreases |a|, 0
  {
    hide ReadFieldHead, SpansIn, Spans;
    var n := Spans(prefix, at, last, a).used;
    StopOrField(prefix, at, last, a);
    StartTail(a, b, n, 0);
    if a[0] == 0 {
      StopOrField(prefix, at, last, b);
    } else {
      var head, own, rest := FieldOfSpans(prefix, at, last, a);
      StartTail(a, b, n, head.used);
      StartTail(a, b, n, head.used + own.used);
      StartTail(Drop(a, head.used), Drop(b, head.used), n - head.used, own.used);
      HeadStart(last, a, b);
      SpansInStart(prefix + [head.v.fid], at + head.used, head.v.ft, Drop(a, head.used), Drop(b, head.used));
      SpansStart(prefix, at + head.used + own.used, head.v.fid, Drop(a, head.used + own.used), Drop(b, head.used + own.used));
      SpansUnfold(prefix, at, last, b, head, own, rest);
    }
  }

  lemma StopOrField(prefix: seq<int>, at: nat, last: int, s: seq<byte>)
    ensures Spans(prefix, at, last, s).Got? ==> s != []
    ensures s != [] && s[0] == 0 ==> Spans(prefix, at, last, s) == Got([], 1)
  {
  }

  lemma {:induction false} SpansInStart(path: seq<int>, at: nat, t: Tag, a: seq<byte>, b: seq<byte>)
    requires SpansIn(path, at, t, a).Got? && SameStart(a, b, SpansIn(path, at, t, a).used)
    ensures SpansIn(path, at, t, b) == SpansIn(path, at, t, a)
    decreases |a|, 1
  {
    hide ReadVarint, Spans;
    if t == T_STRUCT {
      SpansStart(path, at, 0, a, b);
    } else if IsInt(t) || t == T_BINARY {
      StartTail(a, b, SpansIn(path, at, t, a).used, ReadVarint(a).used);
      VarintStart(a, b);
    }
  }

  // ---- Writing over one integer ----

  /** `s` with `w` written over the bytes from `p` on. */
  function Patched(s: seq<byte>, p: nat, w: seq<byte>): seq<byte>
    requires p + |w| <= |s|
  {
    s[..p] + w + s[p + |w|..]
  }

  lemma PatchedTail(s: seq<byte>, p: nat, w: seq<byte>, k: nat)
    requires p + |w| <= |s| && k <= |s|
    ensures SameStart(s, Patched(s, p, w), p)
    ensures k <= p ==> Drop(Patched(s, p, w), k) == Patched(Drop(s, k), p - k, w)
    ensures k >= p + |w| ==> Drop(Patched(s, p, w), k) == Drop(s, k)
  {
  }

  /** The bytes `w` are one whole varint. */
  predicate IsVarint(w: seq<byte>) {
    ReadVarint(w).Got? && ReadVarint(w).used == |w|
  }

  function Replaced(spans: seq<Span>, k: nat, w: seq<byte>): seq<Span>
    requires k < |spans| && IsVarint(w)
  {
    spans[k := spans[k].(value := Unzigzag(ReadVarint(w).v))]
  }

  lemma VarintPatched(s: seq<byte>, w: seq<byte>)
    requires IsVarint(w) && |w| <= |s|
    ensures ReadVarint(Patched(s, 0, w)) == ReadVarint(w)
  {
    var t := Patched(s, 0, w);
    assert t[..|w|] == w && w[..|w|] == w;
    VarintStart(w, t);
  }

  /** Another integer of the same width written over a recorded one: the struct ends where it did, the other integers are
      where they were with the values they had, and this one has the value written. */
  lemma {:induction false} WriteThrough(prefix: seq<int>, at: nat, last: int, s: seq<byte>, k: nat, w: seq<byte>)
    requires var r := Spans(prefix, at, last, s); r.Got? && k < |r.v| && IsVarint(w) && |w| == r.v[k].to - r.v[k].from
    ensures var r := Spans(prefix, at, last, s);
      && at <= r.v[k].from && r.v[k].to <= at + r.used
      && Spans(prefix, at, last, Patched(s, r.v[k].from - at, w)) == Got(Replaced(r.v, k, w), r.used)
    decreases |s|, 0
  {
    hide ReadFieldHead, SpansIn, Spans, IsVarint, ReadVarint, Unzigzag, Patched, Drop, Replaced;
    StopOrField(prefix, at, last, s);
    if s[0] == 0 {
      assert false;
    } else {
      var head, own, rest := FieldOfSpans(prefix, at, last, s);
      var p := OwnOrRest(prefix, at, last, s, k, w, head, own, rest);
      if k < |own.v| {
        OwnWritten(prefix, at, last, s, p, w, head, own, rest, Replaced(own.v, k, w));
      } else {
        RestWritten(prefix, at, last, s, p, w, head, own, rest, Replaced(rest.v, k - |own.v|, w));
      }
      ReplacedInBoth(own.v, rest.v, k, w);
    }
  }

  lemma ReplacedInBoth(a: seq<Span>, b: seq<Span>, k: nat, w: seq<byte>)
    requires k < |a + b| && IsVarint(w)
    ensures Replaced(a + b, k, w) == if k < |a| then Replaced(a, k, w) + b else a + Replaced(b, k - |a|, w)
  {
    hide IsVarint, Unzigzag, ReadVarint;
  }

  lemma OwnWritten(prefix: seq<int>, at: nat, last: int, s: seq<byte>, p: nat, w: seq<byte>,
                   head: Read<FieldHead>, own: Read<seq<Span>>, rest: Read<seq<Span>>, now: seq<Span>)
    requires s != [] && s[0] != 0 && head == ReadFieldHead(last, s) && head.Got? && own.Got? && rest.Got?
    requires rest == Spans(prefix, at + head.used + own.used, head.v.fid, Drop(s, head.used + own.used))
    requires head.used <= p && p + |w| <= head.used + own.used <= |s|
    requires SpansIn(prefix + [head.v.fid], at + head.used, head.v.ft, Patched(Drop(s, head.used), p - head.used, w)) == Got(now, own.used)
    ensures Spans(prefix, at, last, Patched(s, p, w)) == Got(now + rest.v, head.used + own.used + rest.used)
  {
    hide ReadFieldHead, SpansIn, Spans, Patched, Drop;
    var t := Patched(s, p, w);
    PatchedTail(s, p, w, head.used);
    PatchedTail(s, p, w, head.used + own.used);
    StartTail(s, t, p, head.used);
    HeadStart(last, s, t);
    SpansUnfold(prefix, at, last, t, head, Got(now, own.used), rest);
  }

  lemma RestWritten(prefix: seq<int>, at: nat, last: int, s: seq<byte>, p: nat, w: seq<byte>,
                    head: Read<FieldHead>, own: Read<seq<Span>>, rest: Read<seq<Span>>, now: seq<Span>)
    requires s != [] && s[0] != 0 && head == ReadFieldHead(last, s) && head.Got? && own.Got? && rest.Got?
    requires own == SpansIn(prefix + [head.v.fid], at + head.used, head.v.ft, Drop(s, head.used))
    requires head.used + own.used <= p && p + |w| <= |s| && |Drop(s, head.used)| + head.used == |s|
    requires p - head.used - own.used + |w| <= |Drop(s, head.used + own.used)|
    requires Spans(prefix, at + head.used + own.used, head.v.fid, Patched(Drop(s, head.used + own.used), p - head.used - own.used, w))
          == Got(now, rest.used)
    ensures Spans(prefix, at, last, Patched(s, p, w)) == Got(own.v + now, head.used + own.used + rest.used)
  {
    hide ReadFieldHead, SpansIn, Spans, Patched, Drop;
    var t := Patched(s, p, w);
    PatchedTail(s, p, w, head.used);
    PatchedTail(s, p, w, head.used + own.used);
    StartTail(s, t, p, head.used);
    HeadStart(last, s, t);
    StartTail(Drop(s, head.used), Drop(t, head.used), p - head.used, own.used);
    SpansInStart(prefix + [head.v.fid], at + head.used, head.v.ft, Drop(s, head.used), Drop(t, head.used));
    SpansUnfold(prefix, at, last, t, head, own, Got(now, rest.used));
  }

  /** The integer is in the first field or in those after it; either is written through. */
  lemma {:induction false} OwnOrRest(prefix: seq<int>, at: nat, last: int, s: seq<byte>, k: nat, w: seq<byte>,
                    head: Read<FieldHead>, own: Read<seq<Span>>, rest: Read<seq<Span>>) returns (p: nat)
    requires s != [] && s[0] != 0 && head == ReadFieldHead(last, s) && head.Got? && 1 <= head.used <= |s|
    requires own == SpansIn(prefix + [head.v.fid], at + head.used, head.v.ft, Drop(s, head.used)) && own.Got?
    requires rest == Spans(prefix, at + head.used + own.used, head.v.fid, Drop(s, head.used + own.used)) && rest.Got?
    requires head.used + own.used + rest.used <= |s| && |Drop(s, head.used)| < |s| && |Drop(s, head.used + own.used)| < |s|
    requires k < |own.v + rest.v| && IsVarint(w) && |w| == (own.v + rest.v)[k].to - (own.v + rest.v)[k].from
    ensures at + p == (own.v + rest.v)[k].from && p + |w| <= head.used + own.used + rest.used && p >= head.used
    ensures k < |own.v| ==> p + |w| <= head.used + own.used
    ensures k < |own.v| ==>
      SpansIn(prefix + [head.v.fid], at + head.used, head.v.ft, Patched(Drop(s, head.used), p - head.used, w))
      == Got(Replaced(own.v, k, w), own.used)
    ensures k >= |own.v| ==> p >= head.used + own.used
    ensures k >= |own.v| ==>
      Spans(prefix, at + head.used + own.used, head.v.fid, Patched(Drop(s, head.used + own.used), p - head.used - own.used, w))
      == Got(Replaced(rest.v, k - |own.v|, w), rest.used)
    decreases |s|, 0, 0
  {
    hide ReadFieldHead, SpansIn, Spans, IsVarint, ReadVarint, Unzigzag, Patched;
    if k < |own.v| {
      WriteThroughIn(prefix + [head.v.fid], at + head.used, head.v.ft, Drop(s, head.used), k, w);
      p := own.v[k].from - at;
    } else {
      WriteThrough(prefix, at + head.used + own.used, head.v.fid, Drop(s, head.used + own.used), k - |own.v|, w);
      p := rest.v[k - |own.v|].from - at;
    }
  }

  lemma {:induction false} WriteThroughIn(path: seq<int>, at: nat, t: Tag, s: seq<byte>, k: nat, w: seq<byte>)
    requires var r := SpansIn(path, at, t, s); r.Got? && k < |r.v| && IsVarint(w) && |w| == r.v[k].to - r.v[k].from
    ensures var r := SpansIn(path, at, t, s);
      && at <= r.v[k].from && r.v[k].to <= at + r.used && r.used <= |s|
      && SpansIn(path, at, t, Patched(s, r.v[k].from - at, w)) == Got(Replaced(r.v, k, w), r.used)
    decreases |s|, 1
  {
    hide ReadVarint, Spans, Unzigzag, Patched;
    if t == T_STRUCT {
      WriteThrough(path, at, 0, s, k, w);
    } else {
      VarintPatched(s, w);
      var r := SpansIn(path, at, t, s);
      assert IsInt(t) && |r.v| == 1 && |w| == r.used;
      assert Replaced(r.v, 0, w) == [Span(path, at, at + |w|, Unzigzag(ReadVarint(w).v))];
    }
  }
}
