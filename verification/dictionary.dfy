/**
 The attribute dictionary: the two fixed tables that turn a feature's raw
 properties into a record of labelled values, one table per feature class
 (cadastre parcel, almanac resident).
 */
module Dictionary {
  import opened Properties

  /** How a descriptor turns the raw property into its displayed value. */
  datatype Format =
    | Raw                    // `value: properties.<key>`
    | WithUnit(unit: string) // `value: properties.<key> + unit`

  /** One attribute of a feature class: the property it reads, its French
      and English labels, and its value format. */
  datatype Descriptor = Descriptor(key: string, fr: string, en: string, format: Format)

  /** One attribute of a built record: the descriptor's key and labels with
      the value computed from the properties. */
  datatype Entry = Entry(key: string, fr: string, en: string, value: Value)

  /** The unit appended to a parcel's area. */
  const AreaUnit: string := " m²"

  /** The cadastre record, in declaration order. */
  const CadastreDescriptors: seq<Descriptor> := [
    Descriptor("own_name", "Nom propriétaire", "Owner Name", Raw),
    Descriptor("own_surnam", "Prénom propriétaire", "Owner Surname", Raw),
    Descriptor("own_compl", "Complément propriétaire", "Owner Complement", Raw),
    Descriptor("own_desc", "Description propriétaire", "Owner Description", Raw),
    Descriptor("own_share", "Part propriétaire", "Owner Share", Raw),
    Descriptor("own_type", "Type propriétaire", "Owner Type", Raw),
    Descriptor("own_col_de", "Propriétaires (décompte)", "Owners (count)", Raw),
    Descriptor("own_col_ty", "Propriétaires (type)", "Owners (type)", Raw),
    Descriptor("main_use", "Utilisation principale", "Main Use", Raw),
    Descriptor("use", "Utilisation", "Use", Raw),
    Descriptor("category", "Catégorie", "Category", Raw),
    Descriptor("class", "Classe", "Class", Raw),
    Descriptor("subclass", "Sous-classe", "Subclass", Raw),
    Descriptor("area", "Surface", "Area", WithUnit(AreaUnit)),
    Descriptor("page", "Page", "Page", Raw),
    Descriptor("number", "Numéro", "Number", Raw),
    Descriptor("identifier", "Identifiant", "Identifier", Raw)
  ]

  /** Position of the area descriptor in the cadastre record. */
  const AreaIndex: nat := 13

  /** The almanac record, in declaration order. */
  const AlmanachDescriptors: seq<Descriptor> := [
    Descriptor("nom", "Nom", "Name", Raw),
    Descriptor("metier", "Métier", "Occupation", Raw),
    Descriptor("categ", "Catégorie", "Category", Raw),
    Descriptor("nomrue", "Nom de rue", "Street Name", Raw),
    Descriptor("numrue", "Numéro de rue", "Street Number", Raw),
    Descriptor("field_1", "Field 1", "Field 1", Raw),
    Descriptor("id", "ID", "ID", Raw),
    Descriptor("wkt", "Coordonnées", "Coordinates", Raw),
    Descriptor("point_info", "Information sur le point", "Point Information", Raw)
  ]

  /** The displayed value of a raw property under a format. A unit is
      appended by JavaScript string concatenation, so the result is a string
      even when the raw value is `undefined` or a number. */
  function Formatted(f: Format, raw: Value): Value
  {
    match f
    case Raw => raw
    case WithUnit(unit) => Str(ToStr(raw) + unit)
  }

  /** The entry one descriptor contributes for the given properties. */
  function EntryOf(d: Descriptor, p: Props): Entry
  {
    Entry(d.key, d.fr, d.en, Formatted(d.format, Get(p, d.key)))
  }

  /** The record a table of descriptors builds: one entry per descriptor, in
      the table's order, each read from the properties alone. */
  function CreateItem(descs: seq<Descriptor>, p: Props): (item: seq<Entry>)
    ensures |item| == |descs|
    ensures forall i :: 0 <= i < |descs| ==>
      && item[i].key == descs[i].key
      && item[i].fr == descs[i].fr
      && item[i].en == descs[i].en
    ensures forall i :: 0 <= i < |descs| && descs[i].format == Raw ==>
      item[i].value == Get(p, descs[i].key)
    ensures forall i :: 0 <= i < |descs| && descs[i].format.WithUnit? ==>
      item[i].value == Str(ToStr(Get(p, descs[i].key)) + descs[i].format.unit)
  {
    if descs == [] then []
    else [EntryOf(descs[0], p)] + CreateItem(descs[1..], p)
  }

  /** Keys of a descriptor table. */
  function Keys(descs: seq<Descriptor>): set<string>
  {
    set i | 0 <= i < |descs| :: descs[i].key
  }

  /** Every cadastre attribute except the area is a raw pass-through. */
  lemma CadastreFormats()
    ensures |CadastreDescriptors| == 17
    ensures CadastreDescriptors[AreaIndex].key == "area"
    ensures CadastreDescriptors[AreaIndex].format == WithUnit(AreaUnit)
    ensures forall i :: 0 <= i < |CadastreDescriptors| && i != AreaIndex ==>
      CadastreDescriptors[i].format == Raw && CadastreDescriptors[i].key != "area"
  {
  }

  /** `createCadastreItem`: seventeen entries in declaration order, labelled
      by their descriptors; each value is the raw property except the area,
      whose value is the property's string form followed by " m²". */
  function CreateCadastreItem(p: Props): (item: seq<Entry>)
    ensures |item| == 17
    ensures forall i :: 0 <= i < 17 ==>
      && item[i].key == CadastreDescriptors[i].key
      && item[i].fr == CadastreDescriptors[i].fr
      && item[i].en == CadastreDescriptors[i].en
    ensures forall i :: 0 <= i < 17 && i != AreaIndex ==>
      item[i].key != "area" && item[i].value == Get(p, item[i].key)
    ensures item[AreaIndex].key == "area" && item[AreaIndex].fr == "Surface"
    ensures item[AreaIndex].value == Str(ToStr(Get(p, "area")) + " m²")
  {
    CadastreFormats();
    CreateItem(CadastreDescriptors, p)
  }

  /** `createAlmanachItem`: nine entries in declaration order, each the raw
      property it names, with no formatting. */
  function CreateAlmanachItem(p: Props): (item: seq<Entry>)
    ensures |item| == 9
    ensures forall i :: 0 <= i < 9 ==>
      && item[i].key == AlmanachDescriptors[i].key
      && item[i].fr == AlmanachDescriptors[i].fr
      && item[i].en == AlmanachDescriptors[i].en
      && item[i].value == Get(p, AlmanachDescriptors[i].key)
  {
    CreateItem(AlmanachDescriptors, p)
  }

  /** The keys that classify a feature are read by their own tables. */
  lemma ClassifyingKeys()
    ensures "area" in Keys(CadastreDescriptors)
    ensures "field_1" in Keys(AlmanachDescriptors)
  {
    assert CadastreDescriptors[AreaIndex].key == "area";
    assert AlmanachDescriptors[5].key == "field_1";
  }

  /** A record depends only on the properties its descriptors name: binding
      any other key leaves it unchanged. */
  lemma CreateItemIgnoresOtherKeys(descs: seq<Descriptor>, p: Props, k: string, v: Value)
    requires k !in Keys(descs)
    ensures CreateItem(descs, p[k := v]) == CreateItem(descs, p)
  {
  }
}
