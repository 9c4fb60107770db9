/** crawl_raayonit.py: probe the elements `summary_row_1`, `summary_row_2`,
    ... of one listing page until one is missing, and emit
    (name, address, "name, address") rows. */
module Raayonit {
  import opened Results
  import opened Text

  /** An element `summary_row_<n>`: the texts of its `div` children in order. */
  datatype Summary = Summary(divs: seq<string>)

  /** The page: the elements present, by their number. A finite page. */
  type Page = map<nat, Summary>

  /** `parse_business`: the stripped texts of `div[1]` and `div[3]`; `None`
      when either lookup raises NoSuchElementException. */
  function ParseBusiness(e: Summary): (r: Option<(string, string)>)
    ensures r.None? <==> |e.divs| < 3
    ensures r.Some? ==> r.value == (Strip(e.divs[0]), Strip(e.divs[2]))
  {
    if |e.divs| < 3 then None else Some((Strip(e.divs[0]), Strip(e.divs[2])))
  }

  /** The row of id `n`, when the element exists and parses. Both failures
      raise NoSuchElementException, which ends the loop. */
  function Probe(page: Page, n: nat): Option<(string, string)>
  {
    if n in page then ParseBusiness(page[n]) else None
  }

  /** The ids from `n` on that are present on the page. */
  ghost function IdsFrom(page: Page, n: nat): set<nat>
  {
    set k | k in page && k >= n
  }

  /** Moving past a present id removes it from the ids still ahead. */
  lemma IdsShrink(page: Page, n: nat)
    requires n in page
    ensures IdsFrom(page, n + 1) < IdsFrom(page, n)
  {
    assert n in IdsFrom(page, n);
  }

  /** `results` are the rows of ids 1, 2, ..., |results|, in order. */
  predicate Enumerated(page: Page, results: seq<(string, string)>)
  {
    forall i :: 0 <= i < |results| ==> Probe(page, i + 1) == Some(results[i])
  }

  /** The row of the next id extends an enumeration. */
  lemma EnumeratedSnoc(page: Page, results: seq<(string, string)>, row: (string, string))
    requires Enumerated(page, results) && Probe(page, |results| + 1) == Some(row)
    ensures Enumerated(page, results + [row])
  {
    var next := results + [row];
    forall i | 0 <= i < |next|
      ensures Probe(page, i + 1) == Some(next[i])
    {
      if i < |results| {
        assert next[i] == results[i];
      }
    }
  }

  /** The `while True` loop of `main`: results are the rows of ids 1..k in
      order, where id k + 1 is the first that fails; `count` is the `div_id - 1`
      logged at the end. */
  method Enumerate(page: Page) returns (results: seq<(string, string)>, count: nat)
    ensures count == |results|
    ensures forall i :: 0 <= i < |results| ==> Probe(page, i + 1) == Some(results[i])
    ensures Probe(page, count + 1).None?
  {
    var divId: nat := 1;
    results := [];
    while true
      invariant divId >= 1 && |results| == divId - 1
      invariant Enumerated(page, results)
      decreases IdsFrom(page, divId)
    {
      var row := Probe(page, divId);
      if row.None? {
        break;
      }
      IdsShrink(page, divId);
      EnumeratedSnoc(page, results, row.value);
      results := results + [row.value];
      divId := divId + 1;
    }
    count := divId - 1;
  }

  type Row = seq<string>

  const RaayonitHeader: Row := ["Name", "Address", "Name+Address"]

  function BusinessRow(name: string, address: string): Row
  {
    [name, address, name + ", " + address]
  }

  /** The CSV: the header, then one row per result in order. */
  function CsvRows(results: seq<(string, string)>): (rows: seq<Row>)
    ensures |rows| == |results| + 1 && rows[0] == RaayonitHeader
    ensures forall i :: 0 <= i < |results| ==> rows[i + 1] == BusinessRow(results[i].0, results[i].1)
  {
    [RaayonitHeader] + seq(|results|, i requires 0 <= i < |results| => BusinessRow(results[i].0, results[i].1))
  }
}
