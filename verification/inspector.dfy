/**
 The feature inspector: what a click on the map shows in the feature-info
 panel. The first feature at the clicked pixel is classified by the shape of
 its properties, its record is built from the matching dictionary table,
 and the record becomes an ordered sequence of label/value rows.
 */
module Inspector {
  import opened Properties
  import opened Dictionary

  /** One table row of the panel: the French label followed by ":", and
      the value assigned to the value cell. */
  datatype Row = Row(caption: string, value: Value)

  /** The two feature classes the panel knows, and everything else. */
  datatype FeatureClass = Cadastre | Almanach | Unclassified

  /** A feature found at the clicked pixel; only its properties matter. */
  datatype Feature = Feature(properties: Props)

  /** The panel after a click: hidden with its content cleared, or shown
      with the rows of its table (no rows: no table was appended). */
  datatype Display = Hidden | Shown(rows: seq<Row>)

  /** A parcel is recognised by an own `area` key; `field_1` is consulted
      only when `area` is absent. The three classes partition all maps. */
  function Classify(p: Props): (c: FeatureClass)
    ensures c == Cadastre <==> HasOwn(p, "area")
    ensures c == Almanach <==> !HasOwn(p, "area") && HasOwn(p, "field_1")
    ensures c == Unclassified <==> !HasOwn(p, "area") && !HasOwn(p, "field_1")
  {
    if HasOwn(p, "area") then Cadastre
    else if HasOwn(p, "field_1") then Almanach
    else Unclassified
  }

  /** The row an entry renders as. */
  function RowOf(e: Entry): Row
  {
    Row(e.fr + ":", e.value)
  }

  /** Whether the table keeps an entry: the cadastre table drops exactly the
      entries whose value is the empty string; the almanac table keeps all. */
  predicate Kept(e: Entry, skipEmpty: bool)
  {
    !(skipEmpty && IsEmptyString(e.value))
  }

  /** The rows of the table built from a record, in the record's order. */
  function TableRows(items: seq<Entry>, skipEmpty: bool): (rows: seq<Row>)
    ensures |rows| <= |items|
    ensures !skipEmpty ==> |rows| == |items|
  {
    if items == [] then []
    else
      (if Kept(items[0], skipEmpty) then [RowOf(items[0])] else [])
      + TableRows(items[1..], skipEmpty)
  }

  /** The positions, from `i` on, of the entries the table keeps, ascending. */
  function KeptFrom(items: seq<Entry>, skipEmpty: bool, i: nat): seq<nat>
    requires i <= |items|
    decreases |items| - i
  {
    if i == |items| then []
    else
      (if Kept(items[i], skipEmpty) then [i] else [])
      + KeptFrom(items, skipEmpty, i + 1)
  }

  /** The positions of all entries the table keeps, ascending. */
  function KeptIndices(items: seq<Entry>, skipEmpty: bool): seq<nat>
  {
    KeptFrom(items, skipEmpty, 0)
  }

  /** The kept positions from `i` on lie in `[i, |items|)`. */
  lemma {:induction false} KeptFromBounds(items: seq<Entry>, skipEmpty: bool, i: nat)
    requires i <= |items|
    ensures forall j :: 0 <= j < |KeptFrom(items, skipEmpty, i)| ==>
      i <= KeptFrom(items, skipEmpty, i)[j] < |items|
    decreases |items| - i
  {
    if i < |items| {
      KeptFromBounds(items, skipEmpty, i + 1);
      var restIdx := KeptFrom(items, skipEmpty, i + 1);
      if Kept(items[i], skipEmpty) {
        var idx := [i] + restIdx;
        assert KeptFrom(items, skipEmpty, i) == idx;
        forall j | 0 < j < |idx| ensures i < idx[j] < |items| {
          assert idx[j] == restIdx[j - 1];
        }
      } else {
        assert KeptFrom(items, skipEmpty, i) == restIdx;
      }
    }
  }

  /** The kept positions from `i` on are strictly ascending. */
  lemma {:induction false} KeptFromAscending(items: seq<Entry>, skipEmpty: bool, i: nat)
    requires i <= |items|
    ensures forall j, k :: 0 <= j < k < |KeptFrom(items, skipEmpty, i)| ==>
      KeptFrom(items, skipEmpty, i)[j] < KeptFrom(items, skipEmpty, i)[k]
    decreases |items| - i
  {
    if i < |items| {
      KeptFromAscending(items, skipEmpty, i + 1);
      KeptFromBounds(items, skipEmpty, i + 1);
      var restIdx := KeptFrom(items, skipEmpty, i + 1);
      if Kept(items[i], skipEmpty) {
        var idx := [i] + restIdx;
        assert KeptFrom(items, skipEmpty, i) == idx;
        forall j, k | 0 <= j < k < |idx| ensures idx[j] < idx[k] {
          assert idx[k] == restIdx[k - 1];
          if j > 0 {
            assert idx[j] == restIdx[j - 1];
          }
        }
      } else {
        assert KeptFrom(items, skipEmpty, i) == restIdx;
      }
    }
  }

  /** A position from `i` on is kept exactly when its entry passes the
      table's filter. */
  lemma {:induction false} KeptFromMembers(items: seq<Entry>, skipEmpty: bool, i: nat)
    requires i <= |items|
    ensures forall n :: i <= n < |items| ==>
      (n in KeptFrom(items, skipEmpty, i) <==> Kept(items[n], skipEmpty))
    decreases |items| - i
  {
    if i < |items| {
      KeptFromMembers(items, skipEmpty, i + 1);
      KeptFromBounds(items, skipEmpty, i + 1);
      var restIdx := KeptFrom(items, skipEmpty, i + 1);
      assert i !in restIdx;
      if Kept(items[i], skipEmpty) {
        assert KeptFrom(items, skipEmpty, i) == [i] + restIdx;
      } else {
        assert KeptFrom(items, skipEmpty, i) == restIdx;
      }
    }
  }

  /** The rows built from a suffix of a record are, one for one, the rows of
      the entries at the kept positions of that suffix. */
  lemma {:induction false} TableRowsFrom(items: seq<Entry>, skipEmpty: bool, i: nat)
    requires i <= |items|
    ensures |TableRows(items[i..], skipEmpty)| == |KeptFrom(items, skipEmpty, i)|
    ensures forall j :: 0 <= j < |KeptFrom(items, skipEmpty, i)| ==>
      KeptFrom(items, skipEmpty, i)[j] < |items| &&
      TableRows(items[i..], skipEmpty)[j] == RowOf(items[KeptFrom(items, skipEmpty, i)[j]])
    decreases |items| - i
  {
    KeptFromBounds(items, skipEmpty, i);
    if i < |items| {
      TableRowsFrom(items, skipEmpty, i + 1);
      var rest := TableRows(items[i + 1..], skipEmpty);
      var restIdx := KeptFrom(items, skipEmpty, i + 1);
      assert items[i..][1..] == items[i + 1..];
      if Kept(items[i], skipEmpty) {
        assert TableRows(items[i..], skipEmpty) == [RowOf(items[i])] + rest;
        assert KeptFrom(items, skipEmpty, i) == [i] + restIdx;
      } else {
        assert TableRows(items[i..], skipEmpty) == rest;
        assert KeptFrom(items, skipEmpty, i) == restIdx;
      }
    }
  }

  /** The table is an order-preserving selection from the record: its rows
      are exactly the rows of the entries it keeps, in record order. */
  lemma KeptRows(items: seq<Entry>, skipEmpty: bool)
    ensures |TableRows(items, skipEmpty)| == |KeptIndices(items, skipEmpty)|
    ensures forall j :: 0 <= j < |KeptIndices(items, skipEmpty)| ==>
      && KeptIndices(items, skipEmpty)[j] < |items|
      && TableRows(items, skipEmpty)[j] == RowOf(items[KeptIndices(items, skipEmpty)[j]])
    ensures forall j, k :: 0 <= j < k < |KeptIndices(items, skipEmpty)| ==>
      KeptIndices(items, skipEmpty)[j] < KeptIndices(items, skipEmpty)[k]
    ensures forall n :: 0 <= n < |items| ==>
      (n in KeptIndices(items, skipEmpty) <==> Kept(items[n], skipEmpty))
  {
    KeptFromBounds(items, skipEmpty, 0);
    KeptFromAscending(items, skipEmpty, 0);
    KeptFromMembers(items, skipEmpty, 0);
    TableRowsFrom(items, skipEmpty, 0);
    assert items[0..] == items;
  }

  /** Without filtering, the table has one row per entry, in order. */
  lemma {:induction false} UnfilteredRows(items: seq<Entry>)
    ensures |TableRows(items, false)| == |items|
    ensures forall i :: 0 <= i < |items| ==> TableRows(items, false)[i] == RowOf(items[i])
  {
    if items != [] {
      UnfilteredRows(items[1..]);
      assert TableRows(items, false) == [RowOf(items[0])] + TableRows(items[1..], false);
    }
  }

  /** With filtering, no row carries the empty string. */
  lemma FilteredRowsNonEmpty(items: seq<Entry>)
    ensures forall j :: 0 <= j < |TableRows(items, true)| ==>
      !IsEmptyString(TableRows(items, true)[j].value)
  {
  }

  /** When no value is the empty string, the cadastre filter drops nothing. */
  lemma {:induction false} NothingEmptyKeepsAll(items: seq<Entry>)
    requires forall i :: 0 <= i < |items| ==> !IsEmptyString(items[i].value)
    ensures TableRows(items, true) == TableRows(items, false)
  {
    if items != [] {
      NothingEmptyKeepsAll(items[1..]);
    }
  }

  /** When every value is the empty string, the cadastre filter drops all. */
  lemma {:induction false} AllEmptyDropsAll(items: seq<Entry>)
    requires forall i :: 0 <= i < |items| ==> IsEmptyString(items[i].value)
    ensures TableRows(items, true) == []
  {
    if items != [] {
      AllEmptyDropsAll(items[1..]);
    }
  }

  /** When only the entry at position `n` is not the empty string, the
      cadastre filter keeps exactly that one. */
  lemma {:induction false} KeepOne(items: seq<Entry>, n: nat)
    requires n < |items| && !IsEmptyString(items[n].value)
    requires forall i :: 0 <= i < |items| && i != n ==> IsEmptyString(items[i].value)
    ensures TableRows(items, true) == [RowOf(items[n])]
  {
    if n == 0 {
      AllEmptyDropsAll(items[1..]);
    } else {
      KeepOne(items[1..], n - 1);
    }
  }

  /** When only the entries at positions `n` and `m` are not empty strings,
      the cadastre filter keeps exactly those two, in order. */
  lemma {:induction false} KeepTwo(items: seq<Entry>, n: nat, m: nat)
    requires n < m < |items|
    requires !IsEmptyString(items[n].value) && !IsEmptyString(items[m].value)
    requires forall i :: 0 <= i < |items| && i != n && i != m ==> IsEmptyString(items[i].value)
    ensures TableRows(items, true) == [RowOf(items[n]), RowOf(items[m])]
  {
    if n == 0 {
      KeepOne(items[1..], m - 1);
    } else {
      KeepTwo(items[1..], n - 1, m - 1);
    }
  }

  /** A kept entry shows up as a row of the table. */
  lemma KeptEntryShown(items: seq<Entry>, skipEmpty: bool, n: nat)
    requires n < |items| && Kept(items[n], skipEmpty)
    ensures RowOf(items[n]) in TableRows(items, skipEmpty)
  {
    KeptRows(items, skipEmpty);
    var idx := KeptIndices(items, skipEmpty);
    assert n in idx;
    var j :| 0 <= j < |idx| && idx[j] == n;
    assert TableRows(items, skipEmpty)[j] == RowOf(items[n]);
  }

  /** The row of a parcel's area. */
  function SurfaceRow(p: Props): Row
  {
    Row("Surface:", Str(ToStr(Get(p, "area")) + AreaUnit))
  }

  /** The rows `showFeatureInfo` appends for one feature's properties: the
      filtered cadastre table, the full almanac table, or none. No rows
      exactly when the feature is of neither class; a parcel always shows
      its area, so it has between 1 and 17 rows; an almanac entry has 9. */
  function Inspect(p: Props): (rows: seq<Row>)
    ensures rows == [] <==> Classify(p) == Unclassified
    ensures Classify(p) == Cadastre ==> 1 <= |rows| <= 17 && SurfaceRow(p) in rows
    ensures Classify(p) == Cadastre ==> forall j :: 0 <= j < |rows| ==> !IsEmptyString(rows[j].value)
    ensures Classify(p) == Almanach ==> |rows| == 9
  {
    match Classify(p)
    case Cadastre =>
      var item := CreateCadastreItem(p);
      assert RowOf(item[AreaIndex]) == SurfaceRow(p);
      KeptEntryShown(item, true, AreaIndex);
      FilteredRowsNonEmpty(item);
      TableRows(item, true)
    case Almanach =>
      TableRows(CreateAlmanachItem(p), false)
    case Unclassified =>
      []
  }

  /** Cadastre rows: the 17 descriptors in declaration order, labelled with
      their French label and ":", minus exactly those whose value is the
      empty string; absent and non-string values are kept unchanged. */
  lemma CadastreRows(p: Props)
    requires HasOwn(p, "area")
    ensures var rows := Inspect(p);
      var idx := KeptIndices(CreateCadastreItem(p), true);
      && |rows| == |idx|
      && (forall j, k :: 0 <= j < k < |idx| ==> idx[j] < idx[k])
      && (forall j :: 0 <= j < |idx| ==>
            && idx[j] < 17
            && rows[j].caption == CadastreDescriptors[idx[j]].fr + ":"
            && rows[j].value == CreateCadastreItem(p)[idx[j]].value)
      && (forall n :: 0 <= n < 17 ==>
            (n in idx <==> !IsEmptyString(CreateCadastreItem(p)[n].value)))
  {
    KeptRows(CreateCadastreItem(p), true);
  }

  /** A parcel none of whose values is the empty string builds a record
      with no empty-string value: the area value always ends in the unit. */
  lemma CadastreItemNonEmpty(p: Props)
    requires forall k :: k in p ==> !IsEmptyString(p[k])
    ensures forall i :: 0 <= i < 17 ==> !IsEmptyString(CreateCadastreItem(p)[i].value)
  {
  }

  /** A parcel none of whose values is the empty string shows all 17
      descriptors, one row each, in declaration order. */
  lemma CadastreShowsAll(p: Props)
    requires HasOwn(p, "area")
    requires forall k :: k in p ==> !IsEmptyString(p[k])
    ensures |Inspect(p)| == 17
    ensures forall i :: 0 <= i < 17 && i != AreaIndex ==>
      Inspect(p)[i] == Row(CadastreDescriptors[i].fr + ":", Get(p, CadastreDescriptors[i].key))
    ensures Inspect(p)[AreaIndex] == SurfaceRow(p)
  {
    var item := CreateCadastreItem(p);
    CadastreItemNonEmpty(p);
    NothingEmptyKeepsAll(item);
    UnfilteredRows(item);
    var rows := TableRows(item, false);
    assert Inspect(p) == rows;
    forall i | 0 <= i < 17 && i != AreaIndex
      ensures rows[i] == Row(CadastreDescriptors[i].fr + ":", Get(p, CadastreDescriptors[i].key))
    {
      assert rows[i] == RowOf(item[i]);
    }
    assert rows[AreaIndex] == RowOf(item[AreaIndex]);
  }

  /** A parcel whose only non-empty values are its owner name and its area
      shows exactly those two rows. */
  lemma CadastreOwnerAndArea(p: Props)
    requires HasOwn(p, "area")
    requires !IsEmptyString(Get(p, "own_name"))
    requires forall i :: 0 <= i < 17 && i != 0 && i != AreaIndex ==>
      IsEmptyString(Get(p, CadastreDescriptors[i].key))
    ensures Inspect(p) == [Row("Nom propriétaire:", Get(p, "own_name")), SurfaceRow(p)]
  {
    var item := CreateCadastreItem(p);
    KeepTwo(item, 0, AreaIndex);
    assert RowOf(item[0]) == Row("Nom propriétaire:", Get(p, "own_name"));
    assert RowOf(item[AreaIndex]) == SurfaceRow(p);
  }

  /** Almanac rows: exactly one row per descriptor, in declaration order,
      carrying the raw property even when it is empty or absent. */
  lemma AlmanachRows(p: Props)
    requires !HasOwn(p, "area") && HasOwn(p, "field_1")
    ensures |Inspect(p)| == 9
    ensures forall i :: 0 <= i < 9 ==>
      Inspect(p)[i] == Row(AlmanachDescriptors[i].fr + ":", Get(p, AlmanachDescriptors[i].key))
  {
    UnfilteredRows(CreateAlmanachItem(p));
  }

  /** Binding a key that no descriptor reads (hence neither `area` nor
      `field_1`) changes nothing in the panel. */
  lemma InspectIgnoresOtherKeys(p: Props, k: string, v: Value)
    requires k !in Keys(CadastreDescriptors) && k !in Keys(AlmanachDescriptors)
    ensures Inspect(p[k := v]) == Inspect(p)
  {
    ClassifyingKeys();
    CreateItemIgnoresOtherKeys(CadastreDescriptors, p, k, v);
    CreateItemIgnoresOtherKeys(AlmanachDescriptors, p, k, v);
  }

  /** `showFeatureInfo`: the panel is hidden exactly when no feature lies
      at the pixel; otherwise it shows the first feature's rows, with no
      table when that feature is of neither class. */
  function ShowFeatureInfo(features: seq<Feature>): (d: Display)
    ensures d.Hidden? <==> |features| == 0
    ensures d.Shown? ==>
      (d.rows == [] <==> Classify(features[0].properties) == Unclassified)
  {
    if |features| == 0 then Hidden
    else Shown(Inspect(features[0].properties))
  }

  /** Only the first feature at the pixel is ever inspected. */
  lemma FirstFeatureOnly(f: Feature, rest: seq<Feature>)
    ensures ShowFeatureInfo([f] + rest) == ShowFeatureInfo([f])
    ensures ShowFeatureInfo([f]) == Shown(Inspect(f.properties))
  {
  }
}
