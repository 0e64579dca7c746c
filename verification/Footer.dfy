/** Rewriting a Parquet footer: the metadata is decoded, edited and written back behind the edited body. */
module Footer {
  import opened Thrift
  import opened ThriftReader
  import RT = ThriftRoundTrip
  import TC = ThriftCanonical
  import TI = ThriftImage
  import Slices

  const MAGIC: seq<byte> := [80, 65, 82, 49]
  const TWO_32 := 0x1_0000_0000

  function Le32(n: nat): seq<byte>
    requires n < TWO_32
  {
    [n % 256, n / 256 % 256, n / 65536 % 256, n / 16777216]
  }

  function FromLe32(s: seq<byte>): nat
    requires |s| == 4
  {
    (s[0] as int) + 256 * (s[1] as int) + 65536 * (s[2] as int) + 16777216 * (s[3] as int)
  }

  datatype File = Opened(meta: Value, body: seq<byte>) | NotParquet | BadFooter(error: Error)

  datatype Rewritten = File(data: seq<byte>) | Failed(why: File) | TooLong

  /** The metadata of a file and everything before it. */
  function Open(data: seq<byte>): File {
    if Slices.PySlice(data, 0, 4) != MAGIC || Slices.PySlice(data, -4, |data|) != MAGIC then NotParquet
    else if |data| < 8 then BadFooter(WrongValue)
    else
      var start := |data| - 8 - FromLe32(data[|data| - 8..|data| - 4]);
      match ReadValue(T_STRUCT, Slices.PySlice(data, start, |data| - 8))
      case Got(meta, _) => Opened(meta, Slices.PySlice(data, 0, start))
      case Fail(e) => BadFooter(e)
  }

  function Close(meta: Value, body: seq<byte>): Rewritten {
    match WriteValue(T_STRUCT, meta)
    case Refused(e) => Failed(BadFooter(e))
    case Ok(footer) => if |footer| < TWO_32 then File(body + footer + Le32(|footer|) + MAGIC) else TooLong
  }

  type Edit = (Value, seq<byte>) -> (Value, seq<byte>)

  function Rewrite(data: seq<byte>, edit: Edit): Rewritten {
    match Open(data)
    case Opened(meta, body) => Close(edit(meta, body).0, edit(meta, body).1)
    case bad => Failed(bad)
  }

  method RewriteFooter(data: seq<byte>, edit: Edit) returns (r: Rewritten)
    ensures r == Rewrite(data, edit)
  {
    hide ReadValue, WriteValue;
    if Slices.PySlice(data, 0, 4) != MAGIC || Slices.PySlice(data, -4, |data|) != MAGIC { return Failed(NotParquet); }
    if |data| < 8 { return Failed(BadFooter(WrongValue)); }
    var start := |data| - 8 - FromLe32(data[|data| - 8..|data| - 4]);
    var reader := new Reader(Slices.PySlice(data, start, |data| - 8));
    assert reader.Rest() == reader.buf;
    var meta := reader.ReadAny(T_STRUCT);
    if meta.Raised? { return Failed(BadFooter(meta.error)); }
    var edited := edit(meta.v, Slices.PySlice(data, 0, start));
    r := Close(edited.0, edited.1);
  }

  // ---- Framing ----

  lemma Le32RoundTrip(n: nat)
    requires n < TWO_32
    ensures |Le32(n)| == 4 && FromLe32(Le32(n)) == n
  {
    assert n / 256 / 256 == n / 65536 && n / 65536 / 256 == n / 16777216;
  }

  /** A file whose footer length says where the footer starts. */
  lemma Frame(body: seq<byte>, footer: seq<byte>, data: seq<byte>)
    requires |footer| < TWO_32 && data == body + footer + Le32(|footer|) + MAGIC
    ensures |data| >= 8 && |data| - 8 - FromLe32(data[|data| - 8..|data| - 4]) == |body|
    ensures Slices.PySlice(data, -4, |data|) == MAGIC
    ensures Slices.PySlice(data, |body|, |data| - 8) == footer && Slices.PySlice(data, 0, |body|) == body
  {
    Le32RoundTrip(|footer|);
    assert data[|data| - 8..|data| - 4] == Le32(|footer|);
    assert data[|data| - 4..] == MAGIC;
    assert data[|body|..|data| - 8] == footer;
    assert data[..|body|] == body;
  }

  /** A file written ends with the footer, its length in four bytes, the lowest first, and the letters PAR1. */
  lemma FileEnds(meta: Value, body: seq<byte>)
    requires Close(meta, body).File?
    ensures var data, footer := Close(meta, body).data, WriteValue(T_STRUCT, meta).bytes;
      var n := |data|;
      && data[..n - 8] == body + footer
      && |footer| as int == data[n - 8] as int + 0x100 * data[n - 7] as int + 0x1_0000 * data[n - 6] as int + 0x100_0000 * data[n - 5] as int
      && data[n - 4] as int == 'P' as int && data[n - 3] as int == 'A' as int && data[n - 2] as int == 'R' as int
      && data[n - 1] as int == '1' as int
  {
    hide WriteValue, Le32;
    var footer := WriteValue(T_STRUCT, meta).bytes;
    Le32RoundTrip(|footer|);
    var data := body + footer + Le32(|footer|) + MAGIC;
    assert data[..|data| - 8] == body + footer;
    assert data[|data| - 8..|data| - 4] == Le32(|footer|);
    assert data[|data| - 8] == Le32(|footer|)[0] && data[|data| - 7] == Le32(|footer|)[1] && data[|data| - 6] == Le32(|footer|)[2]
        && data[|data| - 5] == Le32(|footer|)[3];
  }

  predicate StartsWithMagic(data: seq<byte>) { Slices.PySlice(data, 0, 4) == MAGIC }

  /** Reopening what was written gives the edited body and the canonical form of the edited metadata, exactly when the file
      starts with the magic: for a body of four bytes or more, when the edit kept it there. */
  lemma ReopenAfterClose(meta: Value, body: seq<byte>)
    requires RT.Supported(T_STRUCT, meta) && Close(meta, body).File?
    ensures Open(Close(meta, body).data) == Opened(RT.Canon(meta), body) <==> StartsWithMagic(Close(meta, body).data)
    ensures !StartsWithMagic(Close(meta, body).data) ==> Open(Close(meta, body).data) == NotParquet
    ensures |body| >= 4 ==> (StartsWithMagic(Close(meta, body).data) <==> body[..4] == MAGIC)
  {
    hide ReadValue, WriteValue, RT.Supported, RT.Canon;
    RT.RoundTrip(T_STRUCT, meta, []);
    var footer := WriteValue(T_STRUCT, meta).bytes;
    var data := Close(meta, body).data;
    Frame(body, footer, data);
    if |body| >= 4 { FrontOfBody(data, body, footer); }
    assert footer + [] == footer;
  }

  /** A shorter body can be completed to the magic by the footer's own first bytes. */
  lemma ShortBodyReopens()
    ensures var meta, body := Struct([Field(3, T_TRUE, Bool(true))]), MAGIC[..3];
      Close(meta, body).File? && Open(Close(meta, body).data) == Opened(RT.Canon(meta), body)
  {
    var f := Field(3, T_TRUE, Bool(true));
    var meta, body := Struct([f]), MAGIC[..3];
    OneFieldWritten();
    assert RT.Supported(T_STRUCT, meta);
    hide WriteValue, ReadValue, RT.Supported, RT.Canon;
    var data := Close(meta, body).data;
    assert data[0] == 80 && data[1] == 65 && data[2] == 82 && data[3] == 49;
    assert Slices.PySlice(data, 0, 4) == data[..4];
    ReopenAfterClose(meta, body);
  }

  lemma OneFieldWritten()
    ensures WriteValue(T_STRUCT, Struct([Field(3, T_TRUE, Bool(true))])) == Ok([0x31, 0x00])
  {
    var f := Field(3, T_TRUE, Bool(true));
    var v := Struct([f]);
    assert [f][1..] == [] && SortFields([f][1..]) == [];
    assert SortFields(v.fields) == [f];
    assert WriteFieldHead(0, 3, T_TRUE) == [0x31];
    assert WriteFields(3, [f][1..], v) == Ok([]);
    assert WriteFields(0, [f], v) == Ok([0x31] + [] + []);
  }

  /** A footer too long for its length field is the only way writing supported metadata can fail. */
  lemma CloseFailsOnlyOnLength(meta: Value, body: seq<byte>)
    requires RT.Supported(T_STRUCT, meta)
    ensures !Close(meta, body).Failed?
  {
    hide ReadValue, WriteValue, RT.Supported, RT.Canon;
    RT.RoundTrip(T_STRUCT, meta, []);
  }

  const NoEdit: Edit := (meta: Value, body: seq<byte>) => (meta, body)

  lemma BodyKeepsMagic(data: seq<byte>)
    requires Open(data).Opened? && |Open(data).body| >= 4
    ensures Open(data).body[..4] == MAGIC
  {
    hide ReadValue;
    assert Open(data).body[..4] == data[..4];
    assert Slices.PySlice(data, 0, 4) == data[..4];
  }

  /** Rewriting without an edit keeps the body, and the metadata up to the order of its fields. */
  lemma IdentityRewrite(data: seq<byte>)
    requires Open(data).Opened? && RT.Supported(T_STRUCT, Open(data).meta) && |Open(data).body| >= 4
    requires Rewrite(data, NoEdit).File?
    ensures Open(Rewrite(data, NoEdit).data) == Opened(RT.Canon(Open(data).meta), Open(data).body)
  {
    hide ReadValue, WriteValue, RT.Supported, RT.Canon;
    BodyKeepsMagic(data);
    ReopenAfterClose(Open(data).meta, Open(data).body);
  }

  lemma OpenFramed(data: seq<byte>, body: seq<byte>, footer: seq<byte>)
    requires |footer| < TWO_32 && data == body + footer + Le32(|footer|) + MAGIC && |body| >= 4 && body[..4] == MAGIC
    requires ReadValue(T_STRUCT, footer).Got?
    ensures Open(data) == Opened(ReadValue(T_STRUCT, footer).v, body)
  {
    hide ReadValue, FromLe32, Slices.PySlice, Le32;
    Frame(body, footer, data);
    FrontOfBody(data, body, footer);
    OpenAt(data, |body|);
  }

  lemma OpenAt(data: seq<byte>, start: nat)
    requires Slices.PySlice(data, 0, 4) == MAGIC && Slices.PySlice(data, -4, |data|) == MAGIC && |data| >= 8
    requires |data| - 8 - FromLe32(data[|data| - 8..|data| - 4]) == start
    requires ReadValue(T_STRUCT, Slices.PySlice(data, start, |data| - 8)).Got?
    ensures Open(data) == Opened(ReadValue(T_STRUCT, Slices.PySlice(data, start, |data| - 8)).v, Slices.PySlice(data, 0, start))
  {
    hide ReadValue, FromLe32, Slices.PySlice;
  }

  lemma FrontOfBody(data: seq<byte>, body: seq<byte>, footer: seq<byte>)
    requires |footer| < TWO_32 && data == body + footer + Le32(|footer|) + MAGIC && |body| >= 4
    ensures Slices.PySlice(data, 0, 4) == body[..4]
  {
    hide Le32;
  }

  /** A file of body, canonical footer, length and magic comes back byte for byte. */
  lemma CanonicalFooterUnchanged(data: seq<byte>, body: seq<byte>, footer: seq<byte>)
    requires |footer| < TWO_32 && data == body + footer + Le32(|footer|) + MAGIC && |body| >= 4 && body[..4] == MAGIC
    requires TC.Canonical(T_STRUCT, footer)
    requires ReadValue(T_STRUCT, footer).Got? ==> ReadValue(T_STRUCT, footer).used == |footer|
    ensures Rewrite(data, NoEdit) == File(data)
  {
    hide ReadValue, WriteValue, RT.Supported, TC.Canonical, Slices.PySlice, Le32, FromLe32;
    TC.Reverse(T_STRUCT, footer);
    assert footer[..|footer|] == footer;
    OpenFramed(data, body, footer);
    hide Open;
    assert Close(ReadValue(T_STRUCT, footer).v, body) == File(data);
  }

  /** One rewrite without an edit settles the file: further ones give the same bytes. */
  lemma IdentityRewriteSettles(data: seq<byte>)
    requires Open(data).Opened? && RT.Supported(T_STRUCT, Open(data).meta) && |Open(data).body| >= 4
    requires Rewrite(data, NoEdit).File?
    ensures var once := Rewrite(data, NoEdit).data; Rewrite(once, NoEdit) == File(once)
  {
    hide ReadValue, WriteValue, RT.Supported, RT.Canon, TC.Canonical;
    var Opened(meta, body) := Open(data);
    BodyKeepsMagic(data);
    RT.RoundTrip(T_STRUCT, meta, []);
    TI.WrittenIsCanonical(T_STRUCT, meta, []);
    var footer := WriteValue(T_STRUCT, meta).bytes;
    assert footer + [] == footer;
    CanonicalFooterUnchanged(Rewrite(data, NoEdit).data, body, footer);
  }
}
