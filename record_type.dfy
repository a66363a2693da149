/** `RecordType`: the four kinds of record and their display ranking. */
module RecordTypes {

  datatype RecordType = Province | City | Event | Individual

  /** `RecordType.allCases`, in declaration order. */
  const AllCases: seq<RecordType> := [Province, City, Event, Individual]

  /** `sortOrder`: provinces first, then cities, events and individuals. */
  function SortOrder(t: RecordType): (order: int)
    ensures 1 <= order <= |AllCases|
    ensures AllCases[order - 1] == t
  {
    match t
    case Province => 1
    case City => 2
    case Event => 3
    case Individual => 4
  }

  /** Distinct types never tie in the ranking. */
  lemma SortOrderInjective(a: RecordType, b: RecordType)
    ensures SortOrder(a) == SortOrder(b) ==> a == b
  {
  }

  /** `allCases` lists every type exactly once. */
  lemma AllCasesComplete(t: RecordType)
    ensures t in AllCases
    ensures forall i, j :: 0 <= i < j < |AllCases| ==> AllCases[i] != AllCases[j]
  {
  }
}
