/** The failable JSON initialisers of the two record kinds read from the
    cities file. A JSON object is a dictionary whose values may be strings or
    anything else; only string values pass the initialisers' guards. */
module RecordJson {
  import opened Wrappers
  import opened RecordTypes
  import opened Records

  datatype JsonValue = JsonString(text: string) | JsonOther

  type Json = map<string, JsonValue>

  const CityTitleKey := "city"
  const PopulationKey := "population"
  const ProvinceKey := "admin"

  /** `json[key] as? String`: none when the key is absent or not a string. */
  function StringAt(json: Json, key: string): (r: Option<string>)
    ensures r.Some? <==> key in json && json[key].JsonString?
    ensures r.Some? ==> json[key] == JsonString(r.value)
  {
    if key in json && json[key].JsonString? then Some(json[key].text) else None
  }

  /** A `City`: the record plus the name of its province. */
  datatype CityRecord = CityRecord(info: RecordInfo, province: string)

  /** The description a city is given. */
  function PopulationSentence(title: string, population: string): string {
    title + " has a population of " + population + "."
  }

  /** `City.init?(json:)`; `hash` is `String.hashValue`. */
  function CityFromJson(json: Json, hash: string -> int): (r: Option<CityRecord>)
    ensures r.Some? <==> StringAt(json, CityTitleKey).Some? && StringAt(json, PopulationKey).Some?
                         && StringAt(json, ProvinceKey).Some?
    ensures r.Some? ==> r.value.info.recordType == City
                        && json[CityTitleKey] == JsonString(r.value.info.title)
                        && json[ProvinceKey] == JsonString(r.value.province)
                        && r.value.info.id == hash(r.value.info.title)
                        && json[PopulationKey] == JsonString(Population(r.value))
  {
    match (StringAt(json, CityTitleKey), StringAt(json, PopulationKey), StringAt(json, ProvinceKey))
    case (Some(title), Some(population), Some(province)) =>
      Some(CityRecord(RecordInfo(City, hash(title), title, PopulationSentence(title, population)), province))
    case _ => None
  }

  /** The population a city's description quotes: the text between the fixed
      words and the final full stop. */
  function Population(c: CityRecord): (population: string)
    ensures forall p :: c.info.description == PopulationSentence(c.info.title, p) ==> population == p
  {
    var d := c.info.description;
    var start := |c.info.title| + |" has a population of "|;
    if start < |d| then d[start..|d| - 1] else ""
  }

  /** The description is the population sentence, and the population can be
      read back from it. */
  lemma CityDescription(json: Json, hash: string -> int)
    requires CityFromJson(json, hash).Some?
    ensures var c := CityFromJson(json, hash).value;
            c.info.description == PopulationSentence(c.info.title, Population(c))
  {
    var c := CityFromJson(json, hash).value;
    var population := StringAt(json, PopulationKey).value;
    assert c.info.description == PopulationSentence(c.info.title, population);
  }

  /** Cities with the same title are the same record for `==` and hashing, so a
      set of cities keeps one per title. */
  lemma SameCityTitleSameRecord(a: Json, b: Json, hash: string -> int)
    requires CityFromJson(a, hash).Some? && CityFromJson(b, hash).Some?
    requires StringAt(a, CityTitleKey) == StringAt(b, CityTitleKey)
    ensures SameRecord(CityFromJson(a, hash).value.info, CityFromJson(b, hash).value.info)
  {
  }

  /** `Province.init?(json:)`: the "admin" string is both title and description. */
  function ProvinceFromJson(json: Json, hash: string -> int): (r: Option<RecordInfo>)
    ensures r.Some? <==> StringAt(json, ProvinceKey).Some?
    ensures r.Some? ==> r.value.recordType == Province
                        && json[ProvinceKey] == JsonString(r.value.title)
                        && r.value.description == r.value.title
                        && r.value.id == hash(r.value.title)
  {
    match StringAt(json, ProvinceKey)
    case Some(title) => Some(RecordInfo(Province, hash(title), title, title))
    case None => None
  }

  /** Every city entry also yields the province it names, and that province's
      title is the city's `province`: the two are matched by title when the
      graph is built. */
  lemma CityEntryNamesItsProvince(json: Json, hash: string -> int)
    requires CityFromJson(json, hash).Some?
    ensures ProvinceFromJson(json, hash).Some?
    ensures ProvinceFromJson(json, hash).value.title == CityFromJson(json, hash).value.province
  {
  }
}
