/** The index checker on page headers that the writer wrote: which page it takes from them. */
module WrittenPages {
  import opened Options
  import opened Thrift
  import opened ThriftGrammar
  import RT = ThriftRoundTrip
  import PR = PageRelocation
  import StableSort
  import ThriftImage
  import Check = PageIndexCheck

  // ---- What a header says, in the fields given to the writer ----

  /** Of several fields with one id a dictionary keeps the last. */
  predicate LastAt(fields: seq<Field>, fid: int, k: nat) {
    k < |fields| && fields[k].fid == fid && forall i :: k < i < |fields| ==> fields[i].fid != fid
  }

  ghost predicate HoldsInt(fields: seq<Field>, fid: int, n: int) {
    exists k: nat :: LastAt(fields, fid, k) && IsInt(fields[k].ft) && fields[k].val == Int(n)
  }

  ghost predicate HoldsStruct(fields: seq<Field>, fid: int, inner: seq<Field>) {
    exists k: nat :: LastAt(fields, fid, k) && fields[k].val == Struct(inner)
  }

  ghost predicate Nothing(fields: seq<Field>, fid: int) {
    PR.Absent(fields, fid) || HoldsStruct(fields, fid, [])
  }

  /** The header of the page's own kind: a V1 data page has field 5, a V2 one field 8, a dictionary page field 7. */
  ghost predicate OwnHeader(h: seq<Field>, id: int, own: seq<Field>) {
    && HoldsStruct(h, id, own) && own != []
    && (id == 5 || (id == 8 && Nothing(h, 5)) || (id == 7 && Nothing(h, 5) && Nothing(h, 8)))
  }

  /** A page has as many values as field 1 of its own header says, or none. */
  ghost predicate SaysValues(h: seq<Field>, n: int) {
    || (exists id, own :: OwnHeader(h, id, own) && (HoldsInt(own, 1, n) || (PR.Absent(own, 1) && n == 0)))
    || (Nothing(h, 5) && Nothing(h, 8) && Nothing(h, 7) && n == 0)
  }

  // ---- The dictionary of what was written ----

  lemma {:induction false} LastOfClass(fields: seq<Field>, probe: Field, k: nat)
    requires LastAt(fields, probe.fid, k)
    ensures var c := StableSort.Class(fields, ById, probe);
            c != [] && c[|c| - 1] == fields[k]
  {
    if k > 0 {
      assert LastAt(fields[1..], probe.fid, k - 1);
      LastOfClass(fields[1..], probe, k - 1);
    } else {
      forall i | 0 <= i < |fields[1..]| ensures fields[1..][i].fid != probe.fid { assert fields[i + 1].fid != probe.fid; }
      NoClass(fields[1..], probe);
    }
  }

  lemma NoClass(fields: seq<Field>, probe: Field)
    requires PR.Absent(fields, probe.fid)
    ensures StableSort.Class(fields, ById, probe) == []
  {
    forall y ensures y !in StableSort.Class(fields, ById, probe) {}
  }

  lemma {:induction false} DictOfClass(out: map<int, Plain>, fields: seq<Field>, probe: Field)
    ensures var c, dict := StableSort.Class(fields, ById, probe), FieldsToDict(out, fields);
            if c == [] then (probe.fid in dict <==> probe.fid in out) && (probe.fid in out ==> dict[probe.fid] == out[probe.fid])
            else probe.fid in dict && dict[probe.fid] == FieldToPlain(c[|c| - 1])
    decreases |fields|
  {
    hide FieldToPlain;
    if fields != [] {
      DictOfClass(out[fields[0].fid := FieldToPlain(fields[0])], fields[1..], probe);
    }
  }

  /** What the checker's dictionary has under an id is the last field with that id that was given to the writer. */
  lemma DictOfWritten(fields: seq<Field>, fid: int)
    ensures RT.Canon(Struct(fields)).Struct?
    ensures var dict := FieldsToDict(map[], RT.Canon(Struct(fields)).fields);
      && (PR.Absent(fields, fid) ==> fid !in dict)
      && forall k: nat :: LastAt(fields, fid, k) ==> fid in dict && dict[fid] == FieldToPlain(RT.CanonField(fields[k]))
  {
    hide FieldToPlain, FieldsToDict, RT.CanonField;
    var probe := Field(fid, T_TRUE, Bool(true));
    var cs := RT.CanonFields(fields);
    PR.CanonOfStruct(fields);
    RT.ByIdIsTotalPreorder();
    StableSort.SortIsStable(cs, ById);
    RT.CanonClass(fields, probe);
    DictOfClass(map[], SortFields(cs), probe);
    if PR.Absent(fields, fid) { NoClass(fields, probe); }
    forall k: nat | LastAt(fields, fid, k) 
      ensures var dict := FieldsToDict(map[], SortFields(cs)); fid in dict && dict[fid] == FieldToPlain(RT.CanonField(fields[k]))
    {
      LastOfClass(fields, probe, k);
    }
  }

  lemma PlainField(f: Field)
    ensures IsInt(f.ft) && f.val.Int? ==> FieldToPlain(f) == PInt(f.val.n)
    ensures f.val.Struct? ==> FieldToPlain(f) == PDict(FieldsToDict(map[], f.val.fields))
  {
    hide FieldsToDict;
  }

  lemma IntOfWritten(fields: seq<Field>, fid: int, n: int)
    requires HoldsInt(fields, fid, n)
    ensures RT.Canon(Struct(fields)).Struct?
    ensures var dict := FieldsToDict(map[], RT.Canon(Struct(fields)).fields); fid in dict && dict[fid] == PInt(n)
  {
    hide FieldsToDict, RT.CanonFields, SortFields;
    DictOfWritten(fields, fid);
    var k: nat :| LastAt(fields, fid, k) && IsInt(fields[k].ft) && fields[k].val == Int(n);
    assert RT.CanonField(fields[k]) == fields[k];
    PlainField(fields[k]);
  }

  lemma StructOfWritten(fields: seq<Field>, fid: int, inner: seq<Field>)
    requires HoldsStruct(fields, fid, inner)
    ensures RT.Canon(Struct(fields)).Struct? && RT.Canon(Struct(inner)).Struct?
    ensures var dict := FieldsToDict(map[], RT.Canon(Struct(fields)).fields);
            fid in dict && dict[fid] == PDict(FieldsToDict(map[], RT.Canon(Struct(inner)).fields))
  {
    hide FieldsToDict, RT.CanonFields, SortFields;
    DictOfWritten(fields, fid);
    PR.CanonOfStruct(inner);
    var k: nat :| LastAt(fields, fid, k) && fields[k].val == Struct(inner);
    assert RT.CanonField(fields[k]).val == RT.Canon(Struct(inner));
    PlainField(RT.CanonField(fields[k]));
  }

  lemma SomethingWritten(fields: seq<Field>)
    requires fields != []
    ensures RT.Canon(Struct(fields)).Struct?
    ensures FieldsToDict(map[], RT.Canon(Struct(fields)).fields) != map[]
  {
    hide FieldsToDict, RT.Canon;
    var k := LastOne(fields, fields[0].fid);
    DictOfWritten(fields, fields[0].fid);
  }

  lemma LastOne(fields: seq<Field>, fid: int) returns (k: nat)
    requires fields != [] && fields[0].fid == fid
    ensures LastAt(fields, fid, k)
  {
    k := |fields| - 1;
    while fields[k].fid != fid
      invariant k < |fields| && forall i :: k < i < |fields| ==> fields[i].fid != fid
      decreases k
    {
      k := k - 1;
    }
  }

  lemma NothingWritten(fields: seq<Field>, fid: int)
    requires Nothing(fields, fid)
    ensures RT.Canon(Struct(fields)).Struct?
    ensures var dict := FieldsToDict(map[], RT.Canon(Struct(fields)).fields); fid in dict ==> dict[fid] == PDict(map[])
  {
    DictOfWritten(fields, fid);
    if HoldsStruct(fields, fid, []) {
      StructOfWritten(fields, fid, []);
      PR.CanonOfStruct([]);
      assert RT.CanonFields([]) == [] && SortFields([]) == [];
    }
  }

  lemma ValuesOfWritten(h: seq<Field>, n: int)
    requires SaysValues(h, n)
    ensures RT.Canon(Struct(h)).Struct?
    ensures Check.ValueCount(FieldsToDict(map[], RT.Canon(Struct(h)).fields)) == Some(n)
  {
    hide FieldsToDict, RT.Canon, HoldsStruct, HoldsInt, Nothing, PR.Absent, LastAt, Check.ValueCount;
    DictOfWritten(h, 5);
    if Nothing(h, 5) { NothingWritten(h, 5); }
    if Nothing(h, 8) { NothingWritten(h, 8); }
    var dict := FieldsToDict(map[], RT.Canon(Struct(h)).fields);
    if id, own :| OwnHeader(h, id, own) && (HoldsInt(own, 1, n) || (PR.Absent(own, 1) && n == 0)) {
      StructOfWritten(h, id, own);
      SomethingWritten(own);
      DictOfWritten(own, 1);
      if HoldsInt(own, 1, n) { IntOfWritten(own, 1, n); }
      OwnCounts(dict, id, FieldsToDict(map[], RT.Canon(Struct(own)).fields), n);
    } else {
      NothingWritten(h, 7);
      NothingCounts(dict);
    }
  }

  predicate EmptyIn(dict: map<int, Plain>, fid: int) { fid in dict ==> dict[fid] == PDict(map[]) }

  lemma OwnCounts(dict: map<int, Plain>, id: int, own: map<int, Plain>, n: int)
    requires id in dict && dict[id] == PDict(own) && own != map[] && id in {5, 8, 7}
    requires (id != 5 ==> EmptyIn(dict, 5)) && (id == 7 ==> EmptyIn(dict, 8))
    requires if 1 in own then own[1] == PInt(n) else n == 0
    ensures Check.ValueCount(dict) == Some(n)
  {
  }

  lemma NothingCounts(dict: map<int, Plain>)
    requires EmptyIn(dict, 5) && EmptyIn(dict, 8) && EmptyIn(dict, 7)
    ensures Check.ValueCount(dict) == Some(0)
  {
  }

  // ---- The page ----

  /** Where a written header stands, the checker finds a page of the kind that the header's field 1 says, of the header's
      length and the compressed size in field 3 together, with the values that its own header's field 1 says. */
  lemma WrittenPage(f: Check.File, pos: int, h: seq<Field>, rest: seq<byte>, kind: int, compressed: int, n: int)
    requires RT.Supported(T_STRUCT, Struct(h)) && WriteValue(T_STRUCT, Struct(h)).Ok?
    requires 0 <= pos <= |f.data| && f.data[pos..] == WriteValue(T_STRUCT, Struct(h)).bytes + rest
    requires HoldsInt(h, 1, kind) && HoldsInt(h, 3, compressed) && SaysValues(h, n)
    ensures Check.PageAt(f, pos)
         == Some(Check.PageInfo(kind, pos, |WriteValue(T_STRUCT, Struct(h)).bytes| + compressed, n))
  {
    hide RT.Supported, WriteValue, ReadFields, CompactFields, FieldsToDict, RT.Canon, SaysValues, HoldsInt, Check.ValueCount;
    RT.RoundTrip(T_STRUCT, Struct(h), rest);
    PR.StructReadsFields(f.data[pos..]);
    PR.CanonOfStruct(h);
    CompactFieldsAgrees(map[], 0, f.data[pos..]);
    IntOfWritten(h, 1, kind);
    IntOfWritten(h, 3, compressed);
    ValuesOfWritten(h, n);
  }

  /** And the relocation takes the same bytes for a page: the header's fields in canonical form, and as many bytes of body as
      its field 3 says. */
  lemma WrittenPageMoves(h: seq<Field>, k: nat, body: seq<byte>, rest: seq<byte>)
    requires RT.Supported(T_STRUCT, Struct(h)) && WriteValue(T_STRUCT, Struct(h)).Ok?
    requires PR.FirstAt(h, 3, k) && h[k].val == Int(|body|)
    ensures var head := WriteValue(T_STRUCT, Struct(h)).bytes;
      && RT.Canon(Struct(h)).Struct?
      && PR.PageAt(head + (body + rest)) == Some(PR.Page(RT.Canon(Struct(h)).fields, |head|, body))
  {
    hide RT.Supported, WriteValue, ReadFields, SortFields, RT.CanonFields, PR.PageAt;
    var head := WriteValue(T_STRUCT, Struct(h)).bytes;
    PR.GetReplaced(h, k, 3, h[k].val, 3);
    PR.FindInCanon(h, 3);
    PR.CanonOfStruct(h);
    ThriftImage.CanonWritesTheSame(T_STRUCT, Struct(h));
    RT.RoundTrip(T_STRUCT, Struct(h), body + rest);
    PR.StructReadsFields(head + (body + rest));
    PR.PageFollows(RT.Canon(Struct(h)).fields, head, body, rest);
  }
}
