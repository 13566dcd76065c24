# Hospital data generator — verified model of the generation core

This project models the generation core of a synthetic hospital data
generator. Given reference tables, the generator produces four tables:

- an **inventory** of drugs, each with an identifier, a stock level, a reorder level and one forced stock-out;
- a **patient register**;
- a table of **clinic visits**;
- a table of **pharmacy orders**.

Each order is chosen by a clinical lookup from the visit's diagnosis to a drug keyword.

Every random value the generator draws is an explicit input of the model: a
record of draws per patient row or visit row, and a sequence of stock draws.
The tables are therefore functions of the reference tables and the draws.

Modules, one file each:

- `wrappers.dfy` (`Wrappers`): `Option`.
- `text.dfy` (`Text`): case-insensitive containment. It models Python's
  `key.lower() in text.lower()` and pandas' `str.contains(kw, case=False, na=False)`.
  It is proved equal to plain containment of the lower-cased strings, and the
  scan is proved equal to the positional definition of a substring.
- `inventory.dfy` (`Inventory`): the inventory table.
  - Identifiers run from 5001.
  - Stock draws lie in [10, 500].
  - The reorder level is 50.
  - Every row whose name contains "Amoxicillin" (ignoring case) is overwritten in place to stock 8.
  - A missing drug name never matches.
  - The case-insensitive scan is proved to mean that the lower-cased keyword occurs somewhere in the lower-cased name.
- `clinical.dfy` (`Clinical`): `clinical_map` as an ordered table and `get_prescribed_drug`.
  - The first key in declared order that occurs in the diagnosis decides the candidate keywords.
  - With no matching key, the fallback set is used.
- `patients.dfy` (`Patients`): the patient loop.
  - Identifiers run 1..N.
  - The insurance is "Cash" or a provider other than "Cash".
  - The non-cash providers are the provider table with every "Cash" entry removed, in table order.
  - Gender and location come from their lists.
- `visits.dfy` (`Visits`): the visit loop and the order step.
  - Visit `i` has identifier 20000 + i, and patient, day, diagnosis, code and department come from its draw.
  - With the coin below 0.8, `get_prescribed_drug` gives the visit a keyword, which is looked up in the inventory.
  - If some row matches, exactly one order is emitted under the running order counter, which starts at 90001.
  - The loop is proved to produce `VisitsOf(draws)` and `Orders(Purchases(draws, keywords))`:
    - `keywords` is a ghost column holding the prescription of each visit whose coin allows a lookup (other visits prescribe nothing and hold the empty keyword, which nothing reads);
    - `Purchases` gives each visit's purchase;
    - `Orders` numbers the purchases that happened.

  The properties of the order table are proved about `Orders` as lemmas:

  - Identifiers have no gaps.
  - There is at most one order per visit.
  - A visit has an order if and only if its coin and the inventory allow one.
  - Each order references, by drug identifier, an inventory row whose name contains the keyword.
  - The quantity is in [1, 3] and the cost is price × quantity.
  - A malaria diagnosis is prescribed AL, Artemether or Paracetamol, so its order is for a row whose name contains one of those keywords, ignoring case. Because matching is by substring, "AL" also matches names such as "Salbutamol".

How to combine the loop's result with the order lemmas:

1. `Visits.Synthesize` states that `orders == Orders(Purchases(draws, keywords, inventory))`.
2. `Visits.PurchasesBought` states that those purchases satisfy `Bought`.
3. `Visits.OrdersFollowDraws`, `Visits.OrderReferencesInventory` and
   `Visits.MalariaOrder` then apply to them.

`Inventory.Synthesize` supplies the `SequentialIds` premise of those lemmas.

## Model

| member | source | states |
|---|---|---|
| Text.ContainsIff | generate_data.py:97 | the containment scan holds exactly when the keyword occurs at some position of the text |
| Text.ContainsIgnoreCaseIsLowerContains | generate_data.py:97 | case-insensitive containment equals containment of the lower-cased keyword in the lower-cased text |
| Inventory.Synthesize | generate_data.py:35-42 | one row per catalogue drug, same drug, identifiers 5001 + k, reorder level 50; the stock is 8 for rows naming Amoxicillin (below the reorder level) and the drawn value in [10, 500] for every other row |
| Inventory.NameContainsIff | generate_data.py:42 | a name matches a keyword (case-insensitive, missing names excluded) exactly when the name is present and the lower-cased keyword occurs at some position of the lower-cased name |
| Inventory.KeywordMatchesInsideWord | generate_data.py:146 | matching is by substring: the keyword "AL" matches the drug name "Salbutamol 4mg" |
| Inventory.StockOutMask | generate_data.py:42 | the mask selects a row exactly when its drug name is present and "amoxicillin" occurs at some position of the lower-cased name |
| Inventory.MarkStockOut | generate_data.py:42 | the stock of every selected row becomes 8 and every other row keeps its stock |
| Inventory.Lookup | generate_data.py:36 | a found row carries the identifier sought; not found means no row carries it |
| Inventory.LookupSequential | generate_data.py:36 | with sequential identifiers, each row's identifier looks up exactly that row |
| Clinical.FirstMatchIsFirst | generate_data.py:96-97 | the scan returns a matching key with no matching key before it, and returns nothing exactly when no key matches |
| Clinical.FirstMatchIsUnique | generate_data.py:96-97 | a matching key with no matching key before it is the one the scan returns |
| Clinical.EntriesNonEmpty | generate_data.py:78-92 | every entry of the clinical map offers at least one drug keyword |
| Clinical.Candidates | generate_data.py:94-100 | the keywords the choice draws from are never empty |
| Clinical.PrescribedDrug | generate_data.py:94-100 | the prescribed keyword is one of the first matching key's drugs, or of the fallback set when no key matches |
| Clinical.PrescribedByFirstMatchingKey | generate_data.py:96-98 | when key j is the first key occurring in the diagnosis, the prescription is one of key j's drugs |
| Clinical.PrescribedFallback | generate_data.py:99-100 | when no key occurs in the diagnosis, the prescription is Paracetamol, Multivitamins or Ibuprofen |
| Clinical.MalariaPrescription | generate_data.py:78-98 | a diagnosis containing "malaria" in any case is prescribed AL, Artemether or Paracetamol |
| Patients.Insurers | generate_data.py:58 | the non-cash providers: a value is listed exactly when the table lists it and it is not "Cash" |
| Patients.InsurersCount | generate_data.py:58 | each non-cash provider is kept as often as the table lists it, and every "Cash" entry is dropped |
| Patients.InsurersAppend | generate_data.py:58 | the filter distributes over concatenation of the table, so the providers keep their table order |
| Patients.Synthesize | generate_data.py:52-68 | N patients with identifiers 1..N; each record is its draw's record, gender Male or Female, location from the list, insurance "Cash" exactly when the coin is below 0.4 and otherwise a listed provider other than "Cash" |
| Patients.NonCashDrawNeedsInsurer | generate_data.py:57-59 | a non-cash patient can only be drawn when the provider table lists a provider other than "Cash" |
| Visits.MatchingItems | generate_data.py:146 | the matching rows are exactly the inventory rows whose name is present and contains the keyword, ignoring case |
| Visits.VisitsOf | generate_data.py:116-136 | one visit row per draw |
| Visits.VisitAt | generate_data.py:116-136 | visit k + 1 is built from draw k |
| Visits.VisitsOfExtend | generate_data.py:129-136 | one more iteration appends exactly the next visit's row |
| Visits.VisitsFollowDraws | generate_data.py:116-136 | visit i has identifier 20000 + i, a patient in 1..N, a day in [0, 1095], a listed department, and the drawn disease's name and code |
| Visits.VisitPurchase | generate_data.py:140-151 | a purchase happens only with the coin below 0.8, buying an inventory row whose name contains the keyword, at the drawn quantity |
| Visits.PurchaseIff | generate_data.py:140-148 | a visit buys something exactly when the coin is below 0.8 and some inventory row matches the keyword |
| Visits.Purchases | generate_data.py:116-161 | one purchase entry per visit |
| Visits.PurchaseAt | generate_data.py:140-151 | entry k of the purchases is visit k's purchase under its keyword |
| Visits.PurchasesBought | generate_data.py:140-151 | every purchase of the loop buys an inventory row matching its visit's keyword at the drawn quantity |
| Visits.OrdersNumbered | generate_data.py:110-161 | at most one order per visit, and order identifiers 90001, 90002, ... without gaps |
| Visits.OrdersRecordVisits | generate_data.py:154-161 | visit identifiers of the orders strictly increase and name existing visits, each order recording its visit's purchase |
| Visits.OrdersWellFormed | generate_data.py:110-161 | at most one order per visit; order identifiers 90001, 90002, ... without gaps; visit identifiers strictly increasing and naming existing visits; each order records its visit's purchase |
| Visits.OrdersComplete | generate_data.py:148-161 | every visit with a purchase has an order |
| Visits.OrderForVisitIff | generate_data.py:148-161 | a visit has an order exactly when it has a purchase |
| Visits.OrdersExtend | generate_data.py:154-161 | one more visit appends exactly its order, numbered by the count so far, or nothing |
| Visits.OrdersStep | generate_data.py:140-161 | one more visit looking for a keyword extends the orders by that visit's order, if any |
| Visits.OrderRecordsItsVisit | generate_data.py:154-160 | each order names a visit and records that visit's purchase |
| Visits.OrderRow | generate_data.py:149-159 | an order buys its visit's quantity, and its drug identifier names the purchased row at that row's price times the quantity |
| Visits.VisitOrderedIff | generate_data.py:140-161 | a visit has an order exactly when its coin is below 0.8 and some inventory row's name contains its keyword |
| Visits.OrderReferencesInventory | generate_data.py:140-159 | an order belongs to a visit whose coin is below 0.8, and its drug identifier names an inventory row whose name contains its visit's keyword; the quantity is the drawn one and the cost the row's price times it |
| Visits.PurchaseIsListed | generate_data.py:152-157 | an order for an inventory row names that row by identifier at that row's price |
| Visits.MalariaKeyword | generate_data.py:126-142 | a visit diagnosed with malaria is prescribed AL, Artemether or Paracetamol |
| Visits.MalariaOrder | generate_data.py:140-157 | an order of a malaria visit buys a row whose name contains "AL", "Artemether" or "Paracetamol", ignoring case |
| Visits.OrdersNameVisits | generate_data.py:116-161 | every order's visit identifier is the identifier of a row of the visit table |
| Visits.OrdersFollowDraws | generate_data.py:110-161 | order identifiers run from 90001 without gaps, one order per visit at most; each order's drug identifier looks up an inventory row whose name contains its visit's keyword, for 1 to 3 units, at price times quantity |
| Visits.Prescribe | generate_data.py:94-100 | the keyword is a drug of the first clinical key occurring in the visit's diagnosis, or of the fallback set when no key occurs; it is recorded as that visit's prescription |
| Visits.PrescribedExtend | generate_data.py:142 | the prescriptions of the visits so far extend by the next visit's prescription |
| Visits.PrescribedSkip | generate_data.py:140 | a visit whose coin is not below 0.8 prescribes nothing, and the prescriptions recorded so far stay valid |
| Visits.BuyMatching | generate_data.py:144-161 | with some row matching, one order for the selected row at the drawn quantity and the row's price times it is appended under the counter, which advances; with none, nothing changes |
| Visits.PlaceOrder | generate_data.py:140-161 | the order table stays the orders of the purchases so far, and the counter stays 90001 plus the number of orders |
| Visits.Synthesize | generate_data.py:116-161 | the visit table is the visits of the draws, and the order table is the orders of the draws' purchases under each visit's prescription |

## Left out

- Reading the four reference CSV files, exiting when one is missing, and writing the four output CSV files: I/O is not modelled. The reference tables are parameters.
- Progress and summary messages: output only.
- The companion column-discovery utility (`discover_columns.py`) is not part of this model.
- Faker names and dates of birth are not modelled. Patient records carry identifier, gender, location and insurance only.
- The pseudo-random generators (`random`, `numpy.random`, the fixed seed) become inputs.
  - Each `randint`, `random` and `choice` value is a field of a per-row draw record, bounded by the range the call guarantees.
  - Uniformity is not modelled.
  - `np.random.choice` over the clinical candidates and `sample(1)` over the matching rows become an index taken modulo the list length.
- Dates: `strftime` formatting and calendar arithmetic are not modelled. A visit date is its day offset from 2022-01-01, and the window is 1095 days.
- Prices and costs are integers (cents) rather than floating point, so total cost is exact.
- `str.contains` is a regular-expression search by default. The model uses plain substring search, which agrees for every keyword the generator uses, since none contains a regular-expression metacharacter.
- Case folding is ASCII lower-casing, not full Unicode folding.
- Patients.Synthesize: requires an in-range insurer pick whenever the cash coin fails. The source instead raises from `np.random.choice` when the provider table lists only "Cash", and the model does not represent that failure.
- Patients.Synthesize: requires every location pick to name a row of the location table. The source instead raises from `np.random.choice` on an empty location table, and the model does not represent that failure.
- Visits.Synthesize: requires every disease pick to name a row of the disease table. The source instead raises from `sample(1)` on an empty disease table.
- Visits.Synthesize: requires every patient draw to lie in 1..N. The source instead raises from `random.randint(1, 0)` when there are no patients but at least one visit, and the model does not represent that failure.
- The counts (15000 patients, 65000 visits) are parameters of `Patients.Synthesize` and `Visits.Synthesize`, not constants.
