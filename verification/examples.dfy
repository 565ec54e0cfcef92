/**
 Worked clicks: concrete property maps and the panel rows they produce.
 */
module Examples {
  import opened Properties
  import opened Dictionary
  import opened Inspector

  /** A parcel's area row shows the value's string form followed by the
      unit, also when the `area` key is bound to `undefined`. */
  lemma AreaFormat(p: Props, q: Props)
    requires p == map["area" := Other("123.45")]
    requires q == map["area" := Undefined]
    ensures Row("Surface:", Str("123.45 m²")) in Inspect(p)
    ensures Row("Surface:", Str("undefined m²")) in Inspect(q)
  {
    assert Get(p, "area") == Other("123.45");
    assert "123.45" + AreaUnit == "123.45 m²";
    assert SurfaceRow(p) == Row("Surface:", Str("123.45 m²"));
    assert Get(q, "area") == Undefined;
    assert "undefined" + AreaUnit == "undefined m²";
    assert SurfaceRow(q) == Row("Surface:", Str("undefined m²"));
  }

  /** A parcel whose other attributes are empty strings shows only its
      owner and its area. */
  lemma ParcelWithEmptyStrings(p: Props)
    requires OwnerAndAreaOnly(p)
    ensures Inspect(p) == [Row("Nom propriétaire:", Str("Dupont")), Row("Surface:", Str("250 m²"))]
  {
    forall i | 0 <= i < 17 && i != 0 && i != AreaIndex
      ensures IsEmptyString(Get(p, CadastreDescriptors[i].key))
    {
      if i < AreaIndex {
        EmptyBeforeArea(p, i);
      } else {
        EmptyAfterArea(p, i);
      }
    }
    CadastreOwnerAndArea(p);
    assert Get(p, "own_name") == Str("Dupont");
    assert SurfaceRow(p) == Row("Surface:", Str("250 m²"));
  }

  /** A property map binding every cadastre key to the empty string except
      the owner name and the area. */
  predicate OwnerAndAreaOnly(p: Props)
  {
    p == map[
      "own_surnam" := Str(""), "own_compl" := Str(""), "own_desc" := Str(""),
      "own_share" := Str(""), "own_type" := Str(""), "own_col_de" := Str(""),
      "own_col_ty" := Str(""), "main_use" := Str(""), "use" := Str(""),
      "category" := Str(""), "class" := Str(""), "subclass" := Str(""),
      "page" := Str(""), "number" := Str(""), "identifier" := Str(""),
      "own_name" := Str("Dupont"), "area" := Other("250")]
  }

  /** The descriptors before the area read empty strings from that map. */
  lemma EmptyBeforeArea(p: Props, i: nat)
    requires OwnerAndAreaOnly(p) && 0 < i < AreaIndex
    ensures IsEmptyString(Get(p, CadastreDescriptors[i].key))
  {
  }

  /** The descriptors after the area read empty strings from that map. */
  lemma EmptyAfterArea(p: Props, i: nat)
    requires OwnerAndAreaOnly(p) && AreaIndex < i < 17
    ensures IsEmptyString(Get(p, CadastreDescriptors[i].key))
  {
  }

  /** A parcel whose other attributes are absent keeps a row for each of
      them: `undefined` is not the empty string. */
  lemma ParcelWithAbsentKeys(p: Props)
    requires p == map["own_name" := Str("Dupont"), "area" := Other("250")]
    ensures |Inspect(p)| == 17
    ensures Inspect(p)[0] == Row("Nom propriétaire:", Str("Dupont"))
    ensures Inspect(p)[1] == Row("Prénom propriétaire:", Undefined)
    ensures Inspect(p)[AreaIndex] == Row("Surface:", Str("250 m²"))
  {
    CadastreShowsAll(p);
    assert "own_surnam" !in p;
  }

  /** An almanac entry shows all nine rows, absent attributes included. */
  lemma AlmanachEntry(p: Props)
    requires p == map["field_1" := Str("7"), "nom" := Str("Rossier")]
    ensures |Inspect(p)| == 9
    ensures Inspect(p)[0] == Row("Nom:", Str("Rossier"))
    ensures Inspect(p)[1] == Row("Métier:", Undefined)
    ensures Inspect(p)[5] == Row("Field 1:", Str("7"))
  {
    AlmanachRows(p);
    assert "metier" !in p;
  }

  /** With both `area` and `field_1`, the feature is read as a parcel. */
  lemma ParcelWinsOverAlmanach(p: Props)
    requires p == map["area" := Str(""), "field_1" := Str("7")]
    ensures Inspect(p)[0] == Row("Nom propriétaire:", Undefined)
  {
    CadastreRows(p);
    assert "own_name" !in p;
    assert 0 in KeptIndices(CreateCadastreItem(p), true);
  }

  /** A click on empty ground hides the panel; a feature of neither class
      shows an empty panel. */
  lemma EmptyClicks(f: Feature)
    requires f == Feature(map["name" := Str("x")])
    ensures ShowFeatureInfo([]) == Hidden
    ensures ShowFeatureInfo([f]) == Shown([])
  {
    assert Classify(f.properties) == Unclassified;
  }
}
