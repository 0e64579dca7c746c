/** The two footer walkers, field by field: what they give for one column of one row group. */
module FooterLookup {
  import opened Options
  import opened Thrift
  import opened ThriftGrammar
  import opened FooterWalk
  import PR = PageRelocation

  /** Field `k` is the only one with this id. */
  predicate OnlyAt(fields: seq<Field>, fid: int, k: nat) {
    k < |fields| && fields[k].fid == fid && forall i :: 0 <= i < |fields| && i != k ==> fields[i].fid != fid
  }

  ghost predicate Only(fields: seq<Field>, fid: int, v: Value) {
    exists k: nat :: OnlyAt(fields, fid, k) && fields[k].val == v
  }

  lemma OnlyRest(fields: seq<Field>, fid: int, v: Value)
    requires fields != [] && Only(fields, fid, v)
    ensures if fields[0].fid == fid then fields[0].val == v && PR.Absent(fields[1..], fid) else Only(fields[1..], fid, v)
  {
    var k: nat :| OnlyAt(fields, fid, k) && fields[k].val == v;
    assert forall i :: 0 <= i < |fields| - 1 ==> fields[1..][i] == fields[i + 1];
    if k > 0 { assert OnlyAt(fields[1..], fid, k - 1); }
  }

  lemma AbsentIff(fields: seq<Field>, fid: int)
    requires fields != []
    ensures PR.Absent(fields, fid) <==> fields[0].fid != fid && PR.Absent(fields[1..], fid)
  {
    assert forall i :: 0 <= i < |fields| - 1 ==> fields[1..][i] == fields[i + 1];
    assert forall i :: 0 < i < |fields| ==> fields[i] == fields[1..][i - 1];
  }

  // ---- Picking a list, picking a struct ----

  lemma {:induction false} NoListPicked<T>(target: int, p: Value -> T, st: seq<T>, fields: seq<Field>)
    requires PR.Absent(fields, target)
    ensures Folded(PickList(target, p), st, fields) == st
  {
    if fields != [] {
      AbsentIff(fields, target);
      NoListPicked(target, p, st, fields[1..]);
    }
  }

  lemma {:induction false} ListPicked<T>(target: int, p: Value -> T, st: seq<T>, fields: seq<Field>, et: Tag, items: seq<Value>)
    requires Only(fields, target, List(et, items))
    ensures Folded(PickList(target, p), st, fields) == st + Mapped(p, items)
  {
    hide Only, Mapped;
    if fields == [] { assert false by { OnlySome(fields, target, List(et, items)); } }
    OnlyRest(fields, target, List(et, items));
    if fields[0].fid == target {
      NoListPicked(target, p, st + Mapped(p, items), fields[1..]);
    } else {
      ListPicked(target, p, st, fields[1..], et, items);
    }
  }

  lemma NoFields(fid: int)
    ensures PR.Absent([], fid) && forall v :: !Only([], fid, v)
  {
  }

  lemma OnlySome(fields: seq<Field>, fid: int, v: Value)
    requires Only(fields, fid, v)
    ensures fields != []
  {
  }

  lemma {:induction false} NoStructPicked<S>(target: int, g: (S, Field) -> S, st: S, fields: seq<Field>)
    requires PR.Absent(fields, target)
    ensures Folded(PickStruct(target, g), st, fields) == st
  {
    if fields != [] {
      AbsentIff(fields, target);
      NoStructPicked(target, g, st, fields[1..]);
    }
  }

  lemma {:induction false} StructPicked<S>(target: int, g: (S, Field) -> S, st: S, fields: seq<Field>, inner: seq<Field>)
    requires Only(fields, target, Struct(inner))
    ensures Folded(PickStruct(target, g), st, fields) == Folded(g, st, inner)
  {
    hide Only;
    OnlySome(fields, target, Struct(inner));
    OnlyRest(fields, target, Struct(inner));
    if fields[0].fid == target {
      NoStructPicked(target, g, Folded(g, st, inner), fields[1..]);
    } else {
      StructPicked(target, g, st, fields[1..], inner);
    }
  }

  lemma {:induction false} MappedAt<T>(p: Value -> T, items: seq<Value>, i: nat)
    requires i < |items|
    ensures |Mapped(p, items)| == |items| && Mapped(p, items)[i] == p(items[i])
  {
    if |items| > 1 { MappedAt(p, items[1..], if i == 0 then 0 else i - 1); }
  }

  // ---- One column ----

  /** A column chunk's metadata is field 3. */
  ghost predicate MetaOf(column: Value, meta: seq<Field>) {
    column.Struct? && Only(column.fields, 3, Struct(meta))
  }

  /** The columns of a row group are field 1. */
  ghost predicate ColumnIn(group: Value, j: nat, meta: seq<Field>) {
    group.Struct? && exists et: Tag, columns: seq<Value> ::
      Only(group.fields, 1, List(et, columns)) && j < |columns| && MetaOf(columns[j], meta)
  }

  /** Column `j` of row group `i`: the row groups are field 4. */
  ghost predicate ColumnAt(fields: seq<Field>, i: nat, j: nat, meta: seq<Field>) {
    exists et: Tag, groups: seq<Value> :: Only(fields, 4, List(et, groups)) && i < |groups| && ColumnIn(groups[i], j, meta)
  }

  lemma ColumnPicked<S>(g: (S, Field) -> S, blank: S, column: Value, meta: seq<Field>)
    requires MetaOf(column, meta)
    ensures ColumnOf(g, blank)(column) == Folded(g, blank, meta)
  {
    hide Only, Folded;
    StructPicked(3, g, blank, column.fields, meta);
  }

  lemma GroupPicked<S>(g: (S, Field) -> S, blank: S, group: Value, j: nat, meta: seq<Field>)
    requires ColumnIn(group, j, meta)
    ensures j < |RowGroupOf(g, blank)(group)| && RowGroupOf(g, blank)(group)[j] == Folded(g, blank, meta)
  {
    hide Only, Folded, Mapped, MetaOf, ColumnOf, PickList;
    var et: Tag, columns: seq<Value> :| Only(group.fields, 1, List(et, columns)) && j < |columns| && MetaOf(columns[j], meta);
    ListPicked(1, ColumnOf(g, blank), [], group.fields, et, columns);
    MappedAt(ColumnOf(g, blank), columns, j);
    ColumnPicked(g, blank, columns[j], meta);
  }

  lemma InFooterAt<S>(g: (S, Field) -> S, blank: S, fields: seq<Field>, i: nat, j: nat, meta: seq<Field>)
    requires ColumnAt(fields, i, j, meta)
    ensures var r := InFooter(g, blank, fields); i < |r| && j < |r[i]| && r[i][j] == Folded(g, blank, meta)
  {
    hide Only, Folded, Mapped, ColumnIn, RowGroupOf, PickList;
    var et: Tag, groups: seq<Value> :| Only(fields, 4, List(et, groups)) && i < |groups| && ColumnIn(groups[i], j, meta);
    ListPicked(4, RowGroupOf(g, blank), [], fields, et, groups);
    MappedAt(RowGroupOf(g, blank), groups, i);
    GroupPicked(g, blank, groups[i], j, meta);
  }

  // ---- Its statistics ----

  lemma {:induction false} StatsFolded(st: Stats, fields: seq<Field>)
    ensures var r := Folded(StatsOf, st, fields);
      && (r.hasMax <==> st.hasMax || !PR.Absent(fields, 5)) && (r.hasMin <==> st.hasMin || !PR.Absent(fields, 6))
      && (PR.Absent(fields, 7) ==> r.maxExact == st.maxExact) && (PR.Absent(fields, 8) ==> r.minExact == st.minExact)
      && (forall b :: Only(fields, 7, Bool(b)) ==> r.maxExact == Some(b))
      && (forall b :: Only(fields, 8, Bool(b)) ==> r.minExact == Some(b))
    decreases |fields|
  {
    hide Only, PR.Absent;
    if fields != [] {
      StatsFolded(StatsOf(st, fields[0]), fields[1..]);
      forall fid ensures PR.Absent(fields, fid) <==> fields[0].fid != fid && PR.Absent(fields[1..], fid) { AbsentIff(fields, fid); }
      forall fid, v | Only(fields, fid, v)
        ensures if fields[0].fid == fid then fields[0].val == v && PR.Absent(fields[1..], fid) else Only(fields[1..], fid, v)
      {
        OnlyRest(fields, fid, v);
      }
    } else {
      forall fid ensures PR.Absent(fields, fid) { NoFields(fid); }
      forall fid, v ensures !Only(fields, fid, v) { NoFields(fid); }
    }
  }

  /** The statistics walker tells of a column whether its statistics (field 12 of its metadata) have a minimum (6) and a maximum
      (5), and what they say of being exact (8 and 7), if anything. */
  lemma StatsOfColumn(s: seq<byte>, i: nat, j: nat, meta: seq<Field>, stats: seq<Field>)
    requires ReadFields(0, s).Got? && FooterOk(StructOk(12, StatsOk), ReadFields(0, s).v)
    requires ColumnAt(ReadFields(0, s).v, i, j, meta)
    requires Only(meta, 12, Struct(stats)) || (PR.Absent(meta, 12) && stats == [])
    ensures FooterStats(s).Got? && i < |FooterStats(s).v| && j < |FooterStats(s).v[i]|
    ensures var r := FooterStats(s).v[i][j];
      && (r.hasMin <==> !PR.Absent(stats, 6)) && (r.hasMax <==> !PR.Absent(stats, 5))
      && (PR.Absent(stats, 8) ==> r.minExact == None) && (forall b :: Only(stats, 8, Bool(b)) ==> r.minExact == Some(b))
      && (PR.Absent(stats, 7) ==> r.maxExact == None) && (forall b :: Only(stats, 7, Bool(b)) ==> r.maxExact == Some(b))
  {
    hide Only, ColumnAt, FooterOk, InFooter, FooterStats, ReadFields, Folded, PR.Absent;
    FooterStatsAgree(s);
    InFooterAt(PickStruct(12, StatsOf), NO_STATS, ReadFields(0, s).v, i, j, meta);
    StatsFolded(NO_STATS, stats);
    if PR.Absent(meta, 12) { NoStructPicked(12, StatsOf, NO_STATS, meta); NothingFolded(); }
    if Only(meta, 12, Struct(stats)) { StructPicked(12, StatsOf, NO_STATS, meta, stats); }
  }

  lemma NothingFolded()
    ensures Folded(StatsOf, NO_STATS, []) == NO_STATS
  {
  }

  // ---- Its Bloom filter ----

  lemma {:induction false} FilterFolded(st: Filter, fields: seq<Field>)
    ensures var r := Folded(FilterOf, st, fields);
      && (PR.Absent(fields, 1) ==> r.kind == st.kind) && (forall n :: Only(fields, 1, Int(n)) ==> r.kind == Some(n))
      && (PR.Absent(fields, 14) ==> r.offset == st.offset) && (forall n :: Only(fields, 14, Int(n)) ==> r.offset == Some(n))
      && (PR.Absent(fields, 15) ==> r.length == st.length) && (forall n :: Only(fields, 15, Int(n)) ==> r.length == Some(n))
      && (PR.Absent(fields, 3) ==> r.path == st.path)
      && (forall et, items :: Only(fields, 3, List(et, items)) ==> r.path == Some(Mapped(NameOf, items)))
    decreases |fields|
  {
    hide Only, PR.Absent, Mapped;
    if fields != [] {
      FilterFolded(FilterOf(st, fields[0]), fields[1..]);
      forall fid ensures PR.Absent(fields, fid) <==> fields[0].fid != fid && PR.Absent(fields[1..], fid) { AbsentIff(fields, fid); }
      forall fid, v | Only(fields, fid, v)
        ensures if fields[0].fid == fid then fields[0].val == v && PR.Absent(fields[1..], fid) else Only(fields[1..], fid, v)
      {
        OnlyRest(fields, fid, v);
      }
    } else {
      forall fid ensures PR.Absent(fields, fid) { NoFields(fid); }
      forall fid, v ensures !Only(fields, fid, v) { NoFields(fid); }
    }
  }

  /** The filter walker tells of a column its physical type (field 1 of its metadata), its path (3), and its filter's offset (14)
      and length (15). */
  lemma FilterOfColumn(s: seq<byte>, i: nat, j: nat, meta: seq<Field>)
    requires ReadFields(0, s).Got? && FooterOk(FilterOk, ReadFields(0, s).v) && ColumnAt(ReadFields(0, s).v, i, j, meta)
    ensures FooterFilters(s).Got? && i < |FooterFilters(s).v| && j < |FooterFilters(s).v[i]|
    ensures var r := FooterFilters(s).v[i][j];
      && (PR.Absent(meta, 1) ==> r.kind == None) && (forall n :: Only(meta, 1, Int(n)) ==> r.kind == Some(n))
      && (PR.Absent(meta, 14) ==> r.offset == None) && (forall n :: Only(meta, 14, Int(n)) ==> r.offset == Some(n))
      && (PR.Absent(meta, 15) ==> r.length == None) && (forall n :: Only(meta, 15, Int(n)) ==> r.length == Some(n))
      && (forall et: Tag, items: seq<Value>, k: nat :: Only(meta, 3, List(et, items)) && k < |items| && items[k].Bytes? ==>
           r.path.Some? && k < |r.path.value| == |items| && r.path.value[k] == items[k].s)
  {
    hide Only, ColumnAt, FooterOk, InFooter, FooterFilters, ReadFields, Folded, PR.Absent;
    FooterFiltersAgree(s);
    InFooterAt(FilterOf, NO_FILTER, ReadFields(0, s).v, i, j, meta);
    FilterFolded(NO_FILTER, meta);
    forall et: Tag, items: seq<Value>, k: nat | Only(meta, 3, List(et, items)) && k < |items| && items[k].Bytes?
      ensures |Mapped(NameOf, items)| == |items| && Mapped(NameOf, items)[k] == items[k].s
    {
      MappedAt(NameOf, items, k);
    }
  }
}
