/**
 * The clinical lookup: an ordered table from disease keywords to candidate
 * drug keywords. The first key, in declared order, found case-insensitively in
 * the diagnosis decides the candidates; with no match a fixed fallback is used.
 */
module Clinical {
  import opened Wrappers
  import opened Text

  type Entry = (string, seq<string>)

  /** `clinical_map`, keys in declared order. */
  const CLINICAL_MAP: seq<Entry> := [
    ("Malaria", ["AL", "Artemether", "Paracetamol"]),
    ("Typhoid", ["Ciprofloxacin", "Paracetamol"]),
    ("Pneumonia", ["Amoxicillin", "Azithromycin", "Cough Syrup"]),
    ("Respiratory", ["Cetirizine", "Cough Syrup", "Salbutamol", "Amoxicillin"]),
    ("Diabetes", ["Metformin", "Glibenclamide"]),
    ("Hypertension", ["Losartan", "Amlodipine"]),
    ("Gastritis", ["Omeprazole"]),
    ("Gastroenteritis", ["Metronidazole", "ORS", "Zinc"]),
    ("Urinary", ["Ciprofloxacin", "Amoxicillin"]),
    ("Dermatitis", ["Cetirizine"]),
    ("Eczema", ["Cetirizine"]),
    ("Anemia", ["Multivitamins"]),
    ("Pain", ["Paracetamol", "Ibuprofen", "Diclofenac"])
  ]

  /** Prescribed when no key matches: a general painkiller or supplement. */
  const FALLBACK: seq<string> := ["Paracetamol", "Multivitamins", "Ibuprofen"]

  /** `str(disease_name)`: a missing diagnosis prints as "nan". */
  function DiagnosisText(name: Option<string>): string
  {
    match name
    case Some(s) => s
    case None => "nan"
  }

  /** `key.lower() in str(disease_name).lower()` */
  predicate KeyMatches(entry: Entry, text: string)
  {
    ContainsIgnoreCase(text, entry.0)
  }

  /** Index of the first entry, in table order, whose key occurs in `text`. */
  function FirstMatch(table: seq<Entry>, text: string): (r: Option<nat>)
    ensures r.Some? ==> r.value < |table|
  {
    if table == [] then None
    else if KeyMatches(table[0], text) then Some(0)
    else
      match FirstMatch(table[1..], text)
      case Some(j) => Some(j + 1)
      case None => None
  }

  /**
   * `FirstMatch` finds a matching entry with no matching entry before it,
   * and finds none exactly when no entry matches.
   */
  lemma {:induction false} FirstMatchIsFirst(table: seq<Entry>, text: string)
    ensures var r := FirstMatch(table, text);
            (r.Some? ==> KeyMatches(table[r.value], text)) &&
            (r.Some? ==> forall j :: 0 <= j < r.value ==> !KeyMatches(table[j], text)) &&
            (r.None? <==> forall j :: 0 <= j < |table| ==> !KeyMatches(table[j], text))
    decreases |table|
  {
    if table != [] && !KeyMatches(table[0], text) {
      FirstMatchIsFirst(table[1..], text);
      assert forall k :: 1 <= k < |table| ==> table[k] == table[1..][k - 1];
    }
  }

  /** An entry that matches with no matching entry before it is the one `FirstMatch` finds. */
  lemma FirstMatchIsUnique(table: seq<Entry>, text: string, j: nat)
    requires j < |table| && KeyMatches(table[j], text)
    requires forall k :: 0 <= k < j ==> !KeyMatches(table[k], text)
    ensures FirstMatch(table, text) == Some(j)
  {
    FirstMatchIsFirst(table, text);
  }

  /** Every entry of the table offers at least one drug keyword. */
  lemma EntriesNonEmpty()
    ensures forall j :: 0 <= j < |CLINICAL_MAP| ==> |CLINICAL_MAP[j].1| > 0
  {
  }

  /** The drug keywords `get_prescribed_drug` chooses from for `diagnosis`; never empty. */
  function Candidates(diagnosis: string): (r: seq<string>)
    ensures |r| > 0
  {
    EntriesNonEmpty();
    match FirstMatch(CLINICAL_MAP, diagnosis)
    case Some(j) => CLINICAL_MAP[j].1
    case None => FALLBACK
  }

  /**
   * `get_prescribed_drug(disease_name)`: the draw `pick` selects among the
   * candidates of the first matching key, or among the fallback set.
   */
  function PrescribedDrug(diagnosis: string, pick: nat): (r: string)
    requires pick < |Candidates(diagnosis)|
    ensures match FirstMatch(CLINICAL_MAP, diagnosis)
            case Some(j) => r in CLINICAL_MAP[j].1
            case None => r in FALLBACK
  {
    Candidates(diagnosis)[pick]
  }

  /** The key that decides is the first matching one in declared order. */
  lemma PrescribedByFirstMatchingKey(diagnosis: string, pick: nat, j: nat)
    requires pick < |Candidates(diagnosis)|
    requires j < |CLINICAL_MAP| && KeyMatches(CLINICAL_MAP[j], diagnosis)
    requires forall k :: 0 <= k < j ==> !KeyMatches(CLINICAL_MAP[k], diagnosis)
    ensures PrescribedDrug(diagnosis, pick) in CLINICAL_MAP[j].1
  {
    FirstMatchIsUnique(CLINICAL_MAP, diagnosis, j);
  }

  /** With no matching key the drug comes from the fallback set. */
  lemma PrescribedFallback(diagnosis: string, pick: nat)
    requires pick < |Candidates(diagnosis)|
    requires forall k :: 0 <= k < |CLINICAL_MAP| ==> !KeyMatches(CLINICAL_MAP[k], diagnosis)
    ensures PrescribedDrug(diagnosis, pick) in {"Paracetamol", "Multivitamins", "Ibuprofen"}
  {
    FirstMatchIsFirst(CLINICAL_MAP, diagnosis);
  }

  /** A diagnosis mentioning malaria, in any case, always gets an antimalarial or paracetamol. */
  lemma MalariaPrescription(diagnosis: string, pick: nat)
    requires ContainsIgnoreCase(diagnosis, "Malaria")
    requires pick < |Candidates(diagnosis)|
    ensures PrescribedDrug(diagnosis, pick) in {"AL", "Artemether", "Paracetamol"}
  {
    assert KeyMatches(CLINICAL_MAP[0], diagnosis);
    PrescribedByFirstMatchingKey(diagnosis, pick, 0);
  }
}
