/**
 * The patient register: patients 1..N, each with a drawn gender, location and
 * insurance affiliation. Names and dates of birth are not modelled.
 */
module Patients {

  const CASH := "Cash"
  /** `random.random() < 0.4` chooses the cash sentinel. */
  const CASH_PROBABILITY: real := 0.4
  const GENDERS: seq<string> := ["Male", "Female"]

  datatype Patient = Patient(patientId: int, gender: string, location: string, insurance: string)

  /**
   * The random values one iteration of the patient loop consumes: the cash
   * coin, the insurer index (only drawn when the coin says not cash), the
   * gender index and the location index.
   */
  datatype PatientDraw = PatientDraw(cashRoll: real, insurerPick: nat, genderPick: nat, locationPick: nat)

  /** `insurers_only`: the provider column without its "Cash" rows, in table order. */
  function Insurers(providers: seq<string>): (r: seq<string>)
    ensures forall p :: p in r <==> p in providers && p != CASH
    ensures forall i :: 0 <= i < |r| ==> r[i] in providers && r[i] != CASH
    ensures |r| <= |providers|
  {
    if providers == [] then []
    else if providers[0] == CASH then Insurers(providers[1..])
    else [providers[0]] + Insurers(providers[1..])
  }

  /** The filter keeps every non-cash entry as often as the table lists it, and drops every "Cash" entry. */
  lemma {:induction false} InsurersCount(providers: seq<string>)
    ensures multiset(Insurers(providers)) == multiset(providers)[CASH := 0]
    decreases |providers|
  {
    if providers != [] {
      InsurersCount(providers[1..]);
      assert providers == [providers[0]] + providers[1..];
    }
  }

  /**
   * Filtering distributes over concatenation, so the non-cash providers keep
   * their table order: each part of the table contributes its own
   * non-cash providers in place.
   */
  lemma {:induction false} InsurersAppend(front: seq<string>, back: seq<string>)
    ensures Insurers(front + back) == Insurers(front) + Insurers(back)
    decreases |front|
  {
    if front == [] {
      assert front + back == back;
    } else {
      var all := front + back;
      assert all[0] == front[0] && all[1..] == front[1..] + back;
      InsurersAppend(front[1..], back);
    }
  }

  /**
   * What the draws can produce: the coin lies in [0, 1), an insurer index is
   * within `insurers_only` whenever it is drawn (the source does not guard the
   * draw from an empty list), and gender and location indices are in range.
   */
  predicate ValidDraw(d: PatientDraw, locations: seq<string>, providers: seq<string>)
  {
    0.0 <= d.cashRoll < 1.0 &&
    (d.cashRoll >= CASH_PROBABILITY ==> d.insurerPick < |Insurers(providers)|) &&
    d.genderPick < |GENDERS| &&
    d.locationPick < |locations|
  }

  /** The record the loop appends for patient `id` (name and date of birth aside). */
  function Draw(id: int, d: PatientDraw, locations: seq<string>, providers: seq<string>): Patient
    requires ValidDraw(d, locations, providers)
  {
    var insurance := if d.cashRoll < CASH_PROBABILITY then CASH else Insurers(providers)[d.insurerPick];
    Patient(id, GENDERS[d.genderPick], locations[d.locationPick], insurance)
  }

  /** The loop `for i in range(1, num_patients + 1)` appending to `patients_data`. */
  method Synthesize(numPatients: nat, locations: seq<string>, providers: seq<string>, draws: seq<PatientDraw>)
    returns (patients: seq<Patient>)
    requires |draws| == numPatients
    requires forall k :: 0 <= k < |draws| ==> ValidDraw(draws[k], locations, providers)
    ensures |patients| == numPatients
    ensures forall k :: 0 <= k < |patients| ==> patients[k] == Draw(k + 1, draws[k], locations, providers)
    ensures forall k :: 0 <= k < |patients| ==> patients[k].patientId == k + 1
    ensures forall k :: 0 <= k < |patients| ==>
      patients[k].gender in GENDERS && patients[k].location in locations
    ensures forall k :: 0 <= k < |patients| ==>
      patients[k].insurance == CASH || (patients[k].insurance in providers && patients[k].insurance != CASH)
    ensures forall k :: 0 <= k < |patients| ==>
      (patients[k].insurance == CASH <==> draws[k].cashRoll < CASH_PROBABILITY)
  {
    patients := [];
    var i := 1;
    while i <= numPatients
      invariant 1 <= i <= numPatients + 1
      invariant |patients| == i - 1
      invariant forall k :: 0 <= k < |patients| ==> patients[k] == Draw(k + 1, draws[k], locations, providers)
    {
      var d := draws[i - 1];
      var insurance;
      if d.cashRoll < CASH_PROBABILITY {
        insurance := CASH;
      } else {
        var insurersOnly := Insurers(providers);
        insurance := insurersOnly[d.insurerPick];
      }
      patients := patients + [Patient(i, GENDERS[d.genderPick], locations[d.locationPick], insurance)];
      i := i + 1;
    }
  }

  /** A non-cash draw can only happen when the table lists some provider other than "Cash". */
  lemma NonCashDrawNeedsInsurer(d: PatientDraw, locations: seq<string>, providers: seq<string>)
    requires ValidDraw(d, locations, providers) && d.cashRoll >= CASH_PROBABILITY
    ensures exists p :: p in providers && p != CASH
  {
    assert Insurers(providers)[d.insurerPick] in Insurers(providers);
  }
}
