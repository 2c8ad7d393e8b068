/**
 The name table of a message's structures, as the decoder computes it once per message,
 and when looking a structure up in it finds that structure.
 */
module Tables {
  import opened Wire
  import opened Schema
  import opened Decoding
  import opened Serde

  type Table = seq<(string, FieldMeta)>

  /** The element structures of the sequences below these fields, innermost first. */
  function StructuresIn(fs: Fields): Table
    decreases fs
  {
    match fs
    case End => []
    case Field(_, f, next) =>
      (if f.IsStructure()
       then StructuresIn(f.fields) + (if f.kind.Many? && f.kind.elem.Structure? then [(f.kind.elem.name, f)] else [])
       else []) + StructuresIn(next)
  }

  /** Of the message's own fields, single structures are in the table too. */
  function StructuresOf(fs: Fields): Table
    decreases fs
  {
    match fs
    case End => []
    case Field(_, f, next) =>
      (if f.IsStructure()
       then StructuresIn(f.fields) + (if f.kind.elem.Structure? then [(f.kind.elem.name, f)] else [])
       else []) + StructuresOf(next)
  }

  function Lookup(table: Table, name: string): Option<FieldMeta>
  {
    if table == [] then None
    else if table[0].0 == name then Some(table[0].1)
    else Lookup(table[1..], name)
  }

  predicate EndsWith(name: string, suffix: string)
  {
    |name| >= |suffix| && name[|name| - |suffix|..] == suffix
  }

  predicate IsMessageName(name: string)
  {
    EndsWith(name, "Request") || EndsWith(name, "Response")
  }

  lemma FrameNames()
    ensures !IsMessageName(HEADER) && !IsMessageName("Frame")
  {
    assert HEADER[8..] == "ezzanine"[1..] && HEADER[7..] == "ezzanine";
    assert "ezzanine"[0] != "Response"[0] && "zzanine"[0] != "Request"[0];
  }

  /** The table sends each of these structures where its place says it does. */
  predicate EachFits(table: Table, fs: Fields, place: Place)
    decreases fs
  {
    fs.Field? ==> Fits(table, fs.meta, place) && EachFits(table, fs.next, place)
  }

  predicate Fits(table: Table, f: FieldMeta, place: Place)
    decreases f
  {
    f.kind.elem.Structure? ==>
      var found := Lookup(table, f.kind.elem.name);
      && f.kind.elem.name != HEADER
      && (if place.Inside(f).Blind? then found.None? && !IsMessageName(f.kind.elem.name)
          else found.Some? && found.value.fields == f.fields)
      && EachFits(table, f.fields, place.Inside(f))
  }

  /** The decoder finds every structure of this message where it should, and the message itself. */
  predicate Findable(m: MessageMeta)
  {
    var table := StructuresOf(m.fields);
    && EachFits(table, m.fields, Top)
    && Lookup(table, m.name).None? && IsMessageName(m.name) && m.name != HEADER
    && Lookup(table, "Frame").None? && Lookup(table, HEADER).None?
  }

  // ---- distinct names suffice

  /** The names of all structures below these fields. */
  function Names(fs: Fields): seq<string>
    decreases fs
  {
    match fs
    case End => []
    case Field(_, f, next) =>
      (if f.kind.elem.Structure? then Names(f.fields) + [f.kind.elem.name] else []) + Names(next)
  }

  predicate Distinct(names: seq<string>)
  {
    forall i, j {:trigger names[i], names[j]} :: 0 <= i < j < |names| ==> names[i] != names[j]
  }

  lemma {:induction false} LookupAppend(a: Table, b: Table, name: string)
    ensures Lookup(a + b, name) == if Lookup(a, name).Some? then Lookup(a, name) else Lookup(b, name)
  {
    if a == [] {
      assert a + b == b;
    } else {
      LookupAppend(a[1..], b, name);
      assert (a + b)[1..] == a[1..] + b;
    }
  }

  lemma DistinctParts(a: seq<string>, b: seq<string>)
    requires Distinct(a + b)
    ensures Distinct(a) && Distinct(b)
    ensures forall x {:trigger x in b} :: x in a ==> x !in b
  {
    var all := a + b;
    forall i, j | 0 <= i < j < |b| ensures b[i] != b[j] {
      assert all[|a| + i] == b[i] && all[|a| + j] == b[j];
    }
    forall i, j | 0 <= i < j < |a| ensures a[i] != a[j] {
      assert all[i] == a[i] && all[j] == a[j];
    }
    forall i, j | 0 <= i < |a| && 0 <= j < |b| ensures a[i] != b[j] {
      assert all[i] == a[i] && all[|a| + j] == b[j];
    }
  }

  /** The table of these fields alone. */
  function Local(fs: Fields, place: Place): Table
  {
    if place.Top? then StructuresOf(fs) else StructuresIn(fs)
  }

  /** What one field contributes to the table. */
  function Own(f: FieldMeta, place: Place): Table
  {
    if f.kind.elem.Structure? && !place.Inside(f).Blind? then [(f.kind.elem.name, f)] else []
  }

  lemma LocalSplits(fs: Fields, place: Place)
    requires fs.Field? && fs.Proper()
    ensures Local(fs, place) == (StructuresIn(fs.meta.fields) + Own(fs.meta, place)) + Local(fs.next, place)
  {
    var f := fs.meta;
    if !f.IsStructure() {
      assert StructuresIn(f.fields) == [] && Own(f, place) == [];
    }
  }

  lemma {:induction false} LocalKeysAreNames(fs: Fields, place: Place, name: string)
    requires fs.Proper() && Lookup(Local(fs, place), name).Some?
    ensures name in Names(fs)
    decreases fs
  {
    if fs.Field? {
      LocalSplits(fs, place);
      var inner, own := StructuresIn(fs.meta.fields), Own(fs.meta, place);
      LookupAppend(inner + own, Local(fs.next, place), name);
      LookupAppend(inner, own, name);
      if Lookup(inner, name).Some? {
        assert fs.meta.IsStructure();
        LocalKeysAreNames(fs.meta.fields, Seen, name);
      } else if Lookup(own, name).None? {
        LocalKeysAreNames(fs.next, place, name);
      }
    }
  }

  /** Where the whole table agrees with the local one on the names below, everything fits. */
  lemma {:induction false} LocalFits(table: Table, fs: Fields, place: Place)
    requires fs.Proper() && Distinct(Names(fs))
    requires forall name :: name in Names(fs) ==> Lookup(table, name) == Lookup(Local(fs, place), name)
    requires forall name :: name in Names(fs) ==> !IsMessageName(name) && name != HEADER
    ensures EachFits(table, fs, place)
    decreases fs
  {
    if fs.Field? {
      var f := fs.meta;
      LocalSplits(fs, place);
      var inner, own := StructuresIn(f.fields), Own(f, place);
      var here := if f.kind.elem.Structure? then Names(f.fields) + [f.kind.elem.name] else [];
      assert Names(fs) == here + Names(fs.next);
      DistinctParts(here, Names(fs.next));
      forall name | name in Names(fs.next) ensures Lookup(table, name) == Lookup(Local(fs.next, place), name) {
        OutsideOf(f, place, here, name);
        LookupAppend(inner + own, Local(fs.next, place), name);
      }
      LocalFits(table, fs.next, place);
      if f.kind.elem.Structure? {
        var name := f.kind.elem.name;
        DistinctParts(Names(f.fields), [name]);
        assert name in [name] && name in here;
        OwnFits(table, fs, place);
        forall n | n in Names(f.fields) ensures Lookup(table, n) == Lookup(inner, n) {
          assert n in here;
          InsideOf(fs, place, n);
        }
        LocalFits(table, f.fields, place.Inside(f));
        assert name in Names(fs);
        assert Fits(table, f, place);
      }
    }
  }

  /** A name of a field's own structures is found among them. */
  lemma {:induction false} InsideOf(fs: Fields, place: Place, name: string)
    requires fs.Field? && fs.Proper() && fs.meta.kind.elem.Structure?
    requires name in Names(fs.meta.fields) && name != fs.meta.kind.elem.name && name !in Names(fs.next)
    ensures Lookup(Local(fs, place), name) == Lookup(StructuresIn(fs.meta.fields), name)
  {
    var inner, own := StructuresIn(fs.meta.fields), Own(fs.meta, place);
    LocalSplits(fs, place);
    LookupAppend(inner + own, Local(fs.next, place), name);
    LookupAppend(inner, own, name);
    if Lookup(Local(fs.next, place), name).Some? {
      LocalKeysAreNames(fs.next, place, name);
    }
  }

  /** A name outside a field's own is not found in what the field contributes. */
  lemma OutsideOf(f: FieldMeta, place: Place, here: seq<string>, name: string)
    requires f.Proper() && here == (if f.kind.elem.Structure? then Names(f.fields) + [f.kind.elem.name] else [])
    requires name !in here
    ensures Lookup(StructuresIn(f.fields) + Own(f, place), name).None?
  {
    LookupAppend(StructuresIn(f.fields), Own(f, place), name);
    if f.kind.elem.Structure? {
      assert f.kind.elem.name in here;
      if Lookup(StructuresIn(f.fields), name).Some? {
        LocalKeysAreNames(f.fields, Seen, name);
      }
    }
  }

  lemma OwnFits(table: Table, fs: Fields, place: Place)
    requires fs.Field? && fs.Proper() && fs.meta.kind.elem.Structure?
    requires fs.meta.kind.elem.name !in Names(fs.meta.fields) && fs.meta.kind.elem.name !in Names(fs.next)
    requires Lookup(table, fs.meta.kind.elem.name) == Lookup(Local(fs, place), fs.meta.kind.elem.name)
    ensures Lookup(table, fs.meta.kind.elem.name) == if place.Inside(fs.meta).Blind? then None else Some(fs.meta)
  {
    var f, name := fs.meta, fs.meta.kind.elem.name;
    LocalSplits(fs, place);
    var inner, own := StructuresIn(f.fields), Own(f, place);
    LookupAppend(inner + own, Local(fs.next, place), name);
    LookupAppend(inner, own, name);
    if Lookup(inner, name).Some? {
      LocalKeysAreNames(f.fields, Seen, name);
    }
    if Lookup(Local(fs.next, place), name).Some? {
      LocalKeysAreNames(fs.next, place, name);
    }
  }

  /** Names that are distinct, and not those of messages or frames, lead where they should. */
  lemma DistinctNamesAreFindable(m: MessageMeta)
    requires m.fields.Proper() && Distinct(Names(m.fields)) && IsMessageName(m.name)
    requires forall name :: name in Names(m.fields) ==> !IsMessageName(name) && name != HEADER && name != "Frame"
    ensures Findable(m)
  {
    var table := StructuresOf(m.fields);
    FrameNames();
    LocalFits(table, m.fields, Top);
    forall name | name == m.name || name == "Frame" || name == HEADER ensures Lookup(table, name).None? {
      if Lookup(table, name).Some? {
        LocalKeysAreNames(m.fields, Top, name);
      }
    }
  }
}
