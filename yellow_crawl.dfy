/** The stateful part of crawl_yellow.py: company discovery, the retried
    branch fetch, the Redis checkpoint store, the resumable per-company loop
    of `main` and the CSV rendering from the store. The browser is an oracle
    (`Site`), Redis a map held by a `Store` object, and JSON the identity. */
module YellowCrawl {
  import opened Results
  import opened Text
  import opened YellowParse

  // ---------------------------------------------------------------------
  // The browser as an oracle

  /** A child of the company list: the text of its first paragraph and the
      link target of its branches link; `None` when that lookup fails. */
  datatype CompanyDiv = CompanyDiv(name: Option<string>, href: Option<string>)

  /** `polls(k)` is what attempt `k + 1` of `get_branches` sees. */
  type Polls = nat -> Poll

  /** What the site shows: where each navigation lands, the children of the
      company list on the directory page (`None`: no such container), and
      the successive looks at each company's branch list. */
  datatype Site = Site(
    nav: string -> Landing,
    companyList: Option<seq<CompanyDiv>>,
    polls: string -> Polls)

  const BaseUrl: string := "https://www.hvr.co.il/site/pg/gift_card_company"

  function CompanyPage(sn: string): string
  {
    "https://www.hvr.co.il/site/pg/gift_card_store?sn=" + sn
  }

  // ---------------------------------------------------------------------
  // crawl_companies_sn

  /** One company entry of the directory page. */
  function ParseDiv(div: CompanyDiv): (r: Result<Entry, Error>)
    ensures r.Ok? <==> div.name.Some? && div.href.Some? && ExtractSn(div.href.value).Some?
    ensures r.Ok? ==> r.value == Entry(div.name.value, ExtractSn(div.href.value).value)
  {
    match (div.name, div.href)
    case (Some(name), Some(href)) =>
      (match ExtractSn(href)
       case Some(sn) => Ok(Entry(name, sn))
       case None => Err(SnNotFound(href)))
    case _ => Err(ElementNotFound)
  }

  /** One turn of the discovery loop: the company name mapped to its code, or the failure. */
  function DiscoverStep(prev: Result<Directory, Error>, div: CompanyDiv): Result<Directory, Error>
  {
    match prev
    case Err(e) => Err(e)
    case Ok(d) =>
      match ParseDiv(div)
      case Err(e) => Err(e)
      case Ok(en) => Ok(Put(d, en.name, en.sn))
  }

  /** The directory after the loop has seen `divs`, stopping at the first
      entry that fails. */
  function Discovered(divs: seq<CompanyDiv>): Result<Directory, Error>
  {
    if divs == [] then Ok([])
    else DiscoverStep(Discovered(divs[..|divs| - 1]), divs[|divs| - 1])
  }

  /** Discovery over one more entry is one more step. */
  lemma DiscoveredNext(divs: seq<CompanyDiv>, i: nat)
    requires i < |divs|
    ensures Discovered(divs[..i + 1]) == DiscoverStep(Discovered(divs[..i]), divs[i])
  {
    assert divs[..i + 1][..i] == divs[..i];
  }

  /** The names shown on the directory page. */
  function DivNames(divs: seq<CompanyDiv>): set<string>
  {
    set i | 0 <= i < |divs| && divs[i].name.Some? :: divs[i].name.value
  }

  /** Discovery succeeds exactly when every entry has a name and a link with
      an embedded code. */
  lemma {:induction false} DiscoveredOk(divs: seq<CompanyDiv>)
    ensures Discovered(divs).Ok? <==> forall i :: 0 <= i < |divs| ==> ParseDiv(divs[i]).Ok?
  {
    if divs != [] {
      var init := divs[..|divs| - 1];
      DiscoveredOk(init);
      assert Discovered(divs) == DiscoverStep(Discovered(init), divs[|divs| - 1]);
      assert forall i :: 0 <= i < |init| ==> init[i] == divs[i];
    }
  }

  /** A discovered directory has one entry per distinct name shown, so never
      more entries than company divs, and at least one when there is a div. */
  lemma {:induction false} DiscoveredShape(divs: seq<CompanyDiv>)
    requires Discovered(divs).Ok?
    ensures var d := Discovered(divs).value;
      && DistinctNames(d) && Names(d) == DivNames(divs) && |d| <= |divs|
      && (|divs| > 0 ==> |d| > 0)
  {
    if divs != [] {
      var init := divs[..|divs| - 1];
      var d0 := Discovered(init).value;
      var en := ParseDiv(divs[|divs| - 1]).value;
      DiscoveredShape(init);
      PutDistinct(d0, en.name, en.sn);
      DivNamesSnoc(divs);
      assert en.name in Names(Put(d0, en.name, en.sn));
    }
  }

  lemma DivNamesSnoc(divs: seq<CompanyDiv>)
    requires divs != [] && divs[|divs| - 1].name.Some?
    ensures DivNames(divs) == DivNames(divs[..|divs| - 1]) + {divs[|divs| - 1].name.value}
  {
    var init := divs[..|divs| - 1];
    forall x | x in DivNames(divs) ensures x in DivNames(init) + {divs[|divs| - 1].name.value} {
      var i :| 0 <= i < |divs| && divs[i].name.Some? && divs[i].name.value == x;
      if i < |init| { assert init[i] == divs[i]; }
    }
    forall x | x in DivNames(init) ensures x in DivNames(divs) {
      var i :| 0 <= i < |init| && init[i].name.Some? && init[i].name.value == x;
      assert divs[i] == init[i];
    }
  }

  /** A repeated name keeps the code of its last occurrence. */
  lemma {:induction false} DiscoveredLastWins(divs: seq<CompanyDiv>, i: nat)
    requires i < |divs| && Discovered(divs).Ok?
    requires forall j :: i < j < |divs| ==> divs[j].name != divs[i].name
    ensures ParseDiv(divs[i]).Ok?
    ensures Lookup(Discovered(divs).value, divs[i].name.value) == Some(ParseDiv(divs[i]).value.sn)
  {
    DiscoveredOk(divs);
    var init := divs[..|divs| - 1];
    var last := ParseDiv(divs[|divs| - 1]).value;
    var d0 := Discovered(init).value;
    PutLookup(d0, last.name, last.sn, divs[i].name.value);
    if i < |divs| - 1 {
      assert init[i] == divs[i];
      assert forall j :: i < j < |init| ==> init[j] == divs[j];
      DiscoveredLastWins(init, i);
    }
  }

  /** `crawl_companies_sn` as a pure value: navigate to the directory page,
      find the company list, and read every entry. */
  function DiscoverSite(site: Site): Result<Directory, Error>
  {
    match Get(BaseUrl, site.nav(BaseUrl))
    case Err(e) => Err(e)
    case Ok(_) =>
      match site.companyList
      case None => Err(ElementNotFound)
      case Some(divs) => Discovered(divs)
  }

  /** The loop of `crawl_companies_sn`: fills the directory entry by entry. */
  method CollectEntries(divs: seq<CompanyDiv>) returns (r: Result<Directory, Error>)
    ensures r == Discovered(divs)
  {
    var result: Directory := [];
    for i := 0 to |divs|
      invariant Discovered(divs[..i]) == Ok(result)
    {
      DiscoveredNext(divs, i);
      var entry := ParseDiv(divs[i]);
      if entry.Err? {
        DiscoveredStaysErr(divs, i + 1);
        return Err(entry.error);
      }
      result := Put(result, entry.value.name, entry.value.sn);
    }
    assert divs[..|divs|] == divs;
    return Ok(result);
  }

  /** `crawl_companies_sn`: open the directory page, then read its entries. */
  method CrawlCompaniesSn(site: Site) returns (r: Result<Directory, Error>)
    ensures r == DiscoverSite(site)
  {
    var cur := Get(BaseUrl, site.nav(BaseUrl));
    if cur.Err? {
      return Err(cur.error);
    }
    if site.companyList.None? {
      return Err(ElementNotFound);
    }
    r := CollectEntries(site.companyList.value);
  }

  /** Once an entry fails, discovery fails with that entry's error. */
  lemma {:induction false} DiscoveredStaysErr(divs: seq<CompanyDiv>, i: nat)
    requires i <= |divs| && Discovered(divs[..i]).Err?
    ensures Discovered(divs) == Discovered(divs[..i])
    decreases |divs| - i
  {
    if i < |divs| {
      assert divs[..i + 1][..i] == divs[..i];
      DiscoveredStaysErr(divs, i + 1);
    } else {
      assert divs[..i] == divs;
    }
  }

  // ---------------------------------------------------------------------
  // crawl_company_branches and the @retry decorator

  /** The attempt budget for a bound of `retries`: the `retrying` library always makes
      the first attempt and stops once the attempt number reaches the bound. */
  function Budget(retries: int): (n: nat)
    ensures n >= 1 && (retries >= 1 ==> n == retries)
    ensures retries < 1 ==> n == 1
  {
    if retries < 1 then 1 else retries
  }

  /** Attempts `k + 1, k + 2, ...` until one succeeds or the budget is spent:
      the last attempt's outcome and the number of attempts made. */
  function RetryFrom(polls: Polls, k: nat, budget: nat): (Result<seq<Branch>, Error>, nat)
    requires k < budget
    decreases budget - k
  {
    var r := Attempt(polls(k));
    if r.Ok? || k + 1 >= budget then (r, k + 1) else RetryFrom(polls, k + 1, budget)
  }

  function Retry(polls: Polls, retries: int): (Result<seq<Branch>, Error>, nat)
  {
    RetryFrom(polls, 0, Budget(retries))
  }

  /** The retried fetch makes at least one and at most `Budget(retries)`
      attempts, every attempt but the last failed, the outcome is the last
      attempt's, and a failure means the whole budget was spent. */
  lemma {:induction false} RetryFromSpec(polls: Polls, k: nat, budget: nat)
    requires k < budget
    ensures var (r, n) := RetryFrom(polls, k, budget);
      && k < n <= budget
      && (forall j :: k <= j < n - 1 ==> Attempt(polls(j)).Err?)
      && r == Attempt(polls(n - 1))
      && (r.Err? ==> n == budget)
      && (r.Ok? ==> |r.value| > 0)
    decreases budget - k
  {
    var r := Attempt(polls(k));
    if !(r.Ok? || k + 1 >= budget) {
      RetryFromSpec(polls, k + 1, budget);
    }
  }

  /** The outcome of the first successful attempt is what the fetch returns. */
  lemma RetryFirstSuccess(polls: Polls, retries: int, m: nat)
    requires m < Budget(retries) && Attempt(polls(m)).Ok?
    requires forall j :: 0 <= j < m ==> Attempt(polls(j)).Err?
    ensures Retry(polls, retries) == (Attempt(polls(m)), m + 1)
  {
    RetryFromSpec(polls, 0, Budget(retries));
  }

  /** The decorated `get_branches`: attempt, and on an exception attempt
      again until the attempt budget is spent. */
  method GetBranches(polls: Polls, retries: int) returns (r: Result<seq<Branch>, Error>, attempts: nat)
    ensures 1 <= attempts <= Budget(retries)
    ensures forall j :: 0 <= j < attempts - 1 ==> Attempt(polls(j)).Err?
    ensures r == Attempt(polls(attempts - 1))
    ensures r.Err? ==> attempts == Budget(retries)
    ensures (r, attempts) == Retry(polls, retries)
  {
    var budget := Budget(retries);
    r := Attempt(polls(0));
    attempts := 1;
    while r.Err? && attempts < budget
      invariant 1 <= attempts <= budget
      invariant r == Attempt(polls(attempts - 1))
      invariant forall j :: 0 <= j < attempts - 1 ==> Attempt(polls(j)).Err?
      invariant RetryFrom(polls, attempts - 1, budget) == Retry(polls, retries)
      decreases budget - attempts
    {
      r := Attempt(polls(attempts));
      attempts := attempts + 1;
    }
  }

  /** `crawl_company_branches` as a value: open the company page (signing in
      if redirected), then the retried fetch. */
  function Fetch(site: Site, sn: string, retries: int): Result<seq<Branch>, Error>
  {
    var url := CompanyPage(sn);
    match Get(url, site.nav(url))
    case Err(e) => Err(e)
    case Ok(_) => Retry(site.polls(sn), retries).0
  }

  /** A fetched branch list is never empty. */
  lemma FetchNonEmpty(site: Site, sn: string, retries: int)
    ensures Fetch(site, sn, retries).Ok? ==> |Fetch(site, sn, retries).value| > 0
  {
    RetryFromSpec(site.polls(sn), 0, Budget(retries));
  }

  /** `crawl_company_branches`. */
  method CrawlCompanyBranches(site: Site, sn: string, retries: int) returns (r: Result<seq<Branch>, Error>)
    ensures r == Fetch(site, sn, retries)
    ensures r.Ok? ==> |r.value| > 0
  {
    var url := CompanyPage(sn);
    var cur := Get(url, site.nav(url));
    if cur.Err? {
      return Err(cur.error);
    }
    // the page does not move while the script sleeps
    assert cur.value == url;
    var attempts;
    r, attempts := GetBranches(site.polls(sn), retries);
  }

  // ---------------------------------------------------------------------
  // The Redis checkpoint store

  /** A stored value; JSON encoding is the identity on these. */
  datatype Value = DirectoryBlob(entries: Directory) | BranchesBlob(branches: seq<Branch>) | Bytes(bytes: string)

  const SnDictKey: string := "sn-dict"
  const StatusOk: Value := Bytes("OK")

  function StatusKey(sn: string): string { sn + "-status" }
  function DataKey(sn: string): string { sn + "-data" }

  /** The three key families never collide, whatever the codes are: the
      suffixes differ in their last character. */
  lemma KeysDistinct(a: string, b: string)
    ensures StatusKey(a) != DataKey(b)
    ensures StatusKey(a) != SnDictKey && DataKey(a) != SnDictKey
    ensures StatusKey(a) == StatusKey(b) ==> a == b
    ensures DataKey(a) == DataKey(b) ==> a == b
  {
    assert StatusKey(a)[|StatusKey(a)| - 1] == 's';
    assert DataKey(b)[|DataKey(b)| - 1] == 'a';
    assert SnDictKey[|SnDictKey| - 1] == 't';
    if StatusKey(a) == StatusKey(b) {
      assert a == StatusKey(a)[..|a|];
      assert b == StatusKey(b)[..|b|];
    }
    if DataKey(a) == DataKey(b) {
      assert a == DataKey(a)[..|a|];
      assert b == DataKey(b)[..|b|];
    }
  }

  function StoredAt(kv: map<string, Value>, key: string): Option<Value>
  {
    if key in kv then Some(kv[key]) else None
  }

  /** The Redis connection: `exists`, `get` and `set`. `writes` records the
      keys in the order they were set. */
  class Store {
    var entries: map<string, Value>
    ghost var writes: seq<string>

    constructor (init: map<string, Value>)
      ensures entries == init && writes == []
    {
      entries := init;
      writes := [];
    }

    function Exists(key: string): bool
      reads this
    {
      key in entries
    }

    function Get(key: string): Option<Value>
      reads this
    {
      StoredAt(entries, key)
    }

    method Set(key: string, v: Value)
      modifies this
      ensures entries == old(entries)[key := v]
      ensures writes == old(writes) + [key]
    {
      entries := entries[key := v];
      writes := writes + [key];
    }
  }

  // ---------------------------------------------------------------------
  // The directory cache of main

  /** The directory `main` works on: the stored one when the store holds the
      directory key (a payload that is not a directory fails to decode);
      otherwise the discovered one, which must not be empty. */
  function LoadResult(kv: map<string, Value>, site: Site): Result<Directory, Error>
  {
    if SnDictKey in kv then
      (if kv[SnDictKey].DirectoryBlob? then Ok(kv[SnDictKey].entries) else Err(BadPayload(SnDictKey)))
    else match DiscoverSite(site)
      case Err(e) => Err(e)
      case Ok(d) => if d == [] then Err(EmptyDirectory) else Ok(d)
  }

  /** The store after loading `dir`: a freshly discovered directory is stored
      under the directory key. */
  function AfterLoad(kv: map<string, Value>, dir: Directory): map<string, Value>
  {
    if SnDictKey in kv then kv else kv[SnDictKey := DirectoryBlob(dir)]
  }

  /** When the store holds the directory key: load the stored directory
      unchanged and do no discovery; otherwise discover, demand a non-empty directory and
      store it. */
  method LoadDirectory(store: Store, site: Site) returns (r: Result<Directory, Error>)
    modifies store
    ensures r == LoadResult(old(store.entries), site)
    ensures r.Ok? ==> store.entries == AfterLoad(old(store.entries), r.value)
    ensures SnDictKey in old(store.entries) ==>
      && store.entries == old(store.entries) && store.writes == old(store.writes)
      && r == (if old(store.entries)[SnDictKey].DirectoryBlob?
               then Ok(old(store.entries)[SnDictKey].entries) else Err(BadPayload(SnDictKey)))
    ensures SnDictKey !in old(store.entries) ==>
      && (r.Ok? <==> DiscoverSite(site).Ok? && DiscoverSite(site).value != [])
      && (r.Ok? ==> r == DiscoverSite(site)
                    && store.entries == old(store.entries)[SnDictKey := DirectoryBlob(r.value)]
                    && store.writes == old(store.writes) + [SnDictKey])
      && (r.Err? ==> store.entries == old(store.entries) && store.writes == old(store.writes))
  {
    if store.Exists(SnDictKey) {
      var v := store.Get(SnDictKey);
      if v.value.DirectoryBlob? {
        return Ok(v.value.entries);
      }
      return Err(BadPayload(SnDictKey));
    }
    r := CrawlCompaniesSn(site);
    if r.Err? {
      return;
    }
    if r.value == [] {
      return Err(EmptyDirectory);
    }
    store.Set(SnDictKey, DirectoryBlob(r.value));
  }

  // ---------------------------------------------------------------------
  // The checkpoint loop of main

  /** The store after the loop has processed some companies, the codes of the
      companies crawled, in order, and the failure that stopped the loop, with
      the code of the company being crawled. */
  datatype Progress = Progress(kv: map<string, Value>, completed: seq<string>, failure: Option<(string, Error)>)

  /** The loop over `dir`: a company whose status is OK is skipped; any other
      is fetched, its data stored and then its status set to OK; a failed
      fetch ends the run. */
  function Checkpoint(kv0: map<string, Value>, dir: Directory, site: Site, retries: int): Progress
  {
    if dir == [] then Progress(kv0, [], None)
    else CheckpointStep(Checkpoint(kv0, dir[..|dir| - 1], site, retries), dir[|dir| - 1].sn, site, retries)
  }

  /** One turn of the loop, for the company with code `sn`. */
  function CheckpointStep(p: Progress, sn: string, site: Site, retries: int): Progress
  {
    if p.failure.Some? || StoredAt(p.kv, StatusKey(sn)) == Some(StatusOk) then p
    else match Fetch(site, sn, retries)
      case Err(e) => Progress(p.kv, p.completed, Some((sn, e)))
      case Ok(bs) => Progress(p.kv[DataKey(sn) := BranchesBlob(bs)][StatusKey(sn) := StatusOk],
                              p.completed + [sn], None)
  }

  /** A company already marked OK stays OK, keeps its stored data, and is
      neither crawled nor the one whose crawl failed. */
  lemma {:induction false} CheckpointSkipsDone(kv0: map<string, Value>, dir: Directory, site: Site, retries: int, sn: string)
    requires StoredAt(kv0, StatusKey(sn)) == Some(StatusOk)
    ensures var p := Checkpoint(kv0, dir, site, retries);
      && StoredAt(p.kv, StatusKey(sn)) == Some(StatusOk)
      && StoredAt(p.kv, DataKey(sn)) == StoredAt(kv0, DataKey(sn))
      && sn !in p.completed
      && (p.failure.Some? ==> p.failure.value.0 != sn)
  {
    if dir != [] {
      CheckpointSkipsDone(kv0, dir[..|dir| - 1], site, retries, sn);
      var x := dir[|dir| - 1].sn;
      KeysDistinct(x, sn);
      KeysDistinct(sn, x);
    }
  }

  /** Every company crawled in this run was not marked OK beforehand, was
      fetched successfully, and has that fetch's branches stored and its
      status OK; no code is crawled twice. */
  lemma {:induction false} CheckpointCompleted(kv0: map<string, Value>, dir: Directory, site: Site, retries: int)
    ensures var p := Checkpoint(kv0, dir, site, retries);
      forall sn :: sn in p.completed ==>
        && StoredAt(kv0, StatusKey(sn)) != Some(StatusOk)
        && Fetch(site, sn, retries).Ok?
        && StoredAt(p.kv, DataKey(sn)) == Some(BranchesBlob(Fetch(site, sn, retries).value))
        && StoredAt(p.kv, StatusKey(sn)) == Some(StatusOk)
    ensures var p := Checkpoint(kv0, dir, site, retries);
      forall i, j :: 0 <= i < j < |p.completed| ==> p.completed[i] != p.completed[j]
    ensures var p := Checkpoint(kv0, dir, site, retries);
      p.failure.Some? ==> StoredAt(kv0, StatusKey(p.failure.value.0)) != Some(StatusOk)
  {
    var p := Checkpoint(kv0, dir, site, retries);
    if dir != [] {
      var init := dir[..|dir| - 1];
      CheckpointCompleted(kv0, init, site, retries);
      var q := Checkpoint(kv0, init, site, retries);
      var x := dir[|dir| - 1].sn;
      if q.failure.None? && StoredAt(q.kv, StatusKey(x)) != Some(StatusOk) {
        if StoredAt(kv0, StatusKey(x)) == Some(StatusOk) {
          CheckpointSkipsDone(kv0, init, site, retries, x);
        }
        assert x !in q.completed;
        forall sn | sn in q.completed
          ensures StoredAt(p.kv, DataKey(sn)) == StoredAt(q.kv, DataKey(sn))
          ensures StoredAt(p.kv, StatusKey(sn)) == StoredAt(q.kv, StatusKey(sn))
        {
          KeysDistinct(x, sn);
          KeysDistinct(sn, x);
        }
        KeysDistinct(x, x);
      }
    }
  }

  /** Keys other than the data and status keys of the crawled companies are
      untouched, the directory key among them. */
  lemma {:induction false} CheckpointFrame(kv0: map<string, Value>, dir: Directory, site: Site, retries: int, key: string)
    ensures var p := Checkpoint(kv0, dir, site, retries);
      (forall sn :: sn in p.completed ==> key != DataKey(sn) && key != StatusKey(sn)) ==>
        StoredAt(p.kv, key) == StoredAt(kv0, key)
  {
    if dir != [] {
      CheckpointFrame(kv0, dir[..|dir| - 1], site, retries, key);
    }
  }

  /** When the loop runs to the end, every code of the directory has status
      OK, and every company not OK beforehand was crawled. */
  lemma {:induction false} CheckpointAllDone(kv0: map<string, Value>, dir: Directory, site: Site, retries: int)
    ensures var p := Checkpoint(kv0, dir, site, retries);
      p.failure.None? ==>
        forall e :: e in dir ==>
          && StoredAt(p.kv, StatusKey(e.sn)) == Some(StatusOk)
          && (StoredAt(kv0, StatusKey(e.sn)) != Some(StatusOk) ==> e.sn in p.completed)
  {
    var p := Checkpoint(kv0, dir, site, retries);
    if dir != [] && p.failure.None? {
      var init := dir[..|dir| - 1];
      CheckpointAllDone(kv0, init, site, retries);
      var q := Checkpoint(kv0, init, site, retries);
      var x := dir[|dir| - 1].sn;
      CheckpointCompleted(kv0, init, site, retries);
      assert q.failure.None?;
      forall e | e in dir
        ensures StoredAt(p.kv, StatusKey(e.sn)) == Some(StatusOk)
        ensures StoredAt(kv0, StatusKey(e.sn)) != Some(StatusOk) ==> e.sn in p.completed
      {
        if e != dir[|dir| - 1] {
          assert e in init;
          KeysDistinct(e.sn, x);
          KeysDistinct(x, e.sn);
        } else if StoredAt(q.kv, StatusKey(x)) == Some(StatusOk) && StoredAt(kv0, StatusKey(x)) != Some(StatusOk) {
          if x !in q.completed {
            CheckpointFrame(kv0, init, site, retries, StatusKey(x));
            forall sn | sn in q.completed ensures StatusKey(x) != DataKey(sn) && StatusKey(x) != StatusKey(sn) {
              KeysDistinct(x, sn);
            }
          }
        }
      }
    }
  }

  /** A failure, once it happens, is the outcome of the whole loop. */
  lemma {:induction false} CheckpointFailureSticks(kv0: map<string, Value>, dir: Directory, site: Site, retries: int, i: nat)
    requires i <= |dir| && Checkpoint(kv0, dir[..i], site, retries).failure.Some?
    ensures Checkpoint(kv0, dir, site, retries) == Checkpoint(kv0, dir[..i], site, retries)
    decreases |dir| - i
  {
    if i < |dir| {
      assert dir[..i + 1][..i] == dir[..i];
      CheckpointFailureSticks(kv0, dir, site, retries, i + 1);
    } else {
      assert dir[..i] == dir;
    }
  }

  /** The keys a list of crawled companies writes: for each, its data key
      and then its status key. */
  function CheckpointWrites(completed: seq<string>): (w: seq<string>)
    ensures |w| == 2 * |completed|
  {
    if completed == [] then []
    else CheckpointWrites(completed[..|completed| - 1])
         + [DataKey(completed[|completed| - 1]), StatusKey(completed[|completed| - 1])]
  }

  /** Each company's data is written immediately before its status. */
  lemma {:induction false} CheckpointWritesOrder(completed: seq<string>, k: nat)
    requires k < |completed|
    ensures CheckpointWrites(completed)[2 * k] == DataKey(completed[k])
    ensures CheckpointWrites(completed)[2 * k + 1] == StatusKey(completed[k])
  {
    var n := |completed| - 1;
    if k < n {
      CheckpointWritesOrder(completed[..n], k);
      assert completed[..n][k] == completed[k];
    }
  }

  /** Appending one crawled company adds its data key, then its status key. */
  lemma CheckpointWritesSnoc(completed: seq<string>, sn: string)
    ensures CheckpointWrites(completed + [sn]) == CheckpointWrites(completed) + [DataKey(sn), StatusKey(sn)]
  {
    assert (completed + [sn])[..|completed|] == completed;
  }

  /** One turn of the `for` loop of `main`: skip a company already marked OK,
      otherwise crawl it and store its data, then its status. */
  method CrawlCompany(store: Store, site: Site, sn: string, retries: int, completed: seq<string>)
    returns (failure: Option<(string, Error)>, done: seq<string>)
    modifies store
    ensures Progress(store.entries, done, failure)
         == CheckpointStep(Progress(old(store.entries), completed, None), sn, site, retries)
    ensures store.writes == old(store.writes) + CheckpointWrites(done)[2 * |completed|..]
    ensures done == completed || done == completed + [sn]
  {
    var statusKey := StatusKey(sn);
    failure := None;
    done := completed;
    if store.Get(statusKey) == Some(StatusOk) {
      // already crawled: skip
    } else {
      var branches := CrawlCompanyBranches(site, sn, retries);
      if branches.Err? {
        failure := Some((sn, branches.error));
        return;
      }
      store.Set(DataKey(sn), BranchesBlob(branches.value));
      store.Set(statusKey, StatusOk);
      CheckpointWritesSnoc(completed, sn);
      done := completed + [sn];
    }
  }

  /** The `for` loop of `main` over the directory. */
  method CrawlCompanies(store: Store, site: Site, dir: Directory, retries: int)
    returns (failure: Option<(string, Error)>, completed: seq<string>)
    modifies store
    ensures Progress(store.entries, completed, failure) == Checkpoint(old(store.entries), dir, site, retries)
    ensures store.writes == old(store.writes) + CheckpointWrites(completed)
  {
    ghost var kv0 := store.entries;
    completed := [];
    failure := None;
    for i := 0 to |dir|
      invariant failure == None
      invariant Progress(store.entries, completed, None) == Checkpoint(kv0, dir[..i], site, retries)
      invariant store.writes == old(store.writes) + CheckpointWrites(completed)
    {
      assert dir[..i + 1][..i] == dir[..i];
      ghost var before := completed;
      assert Checkpoint(kv0, dir[..i + 1], site, retries)
          == CheckpointStep(Progress(store.entries, completed, None), dir[i].sn, site, retries);
      failure, completed := CrawlCompany(store, site, dir[i].sn, retries, completed);
      assert CheckpointWrites(completed) == CheckpointWrites(before) + CheckpointWrites(completed)[2 * |before|..] by {
        if completed != before {
          CheckpointWritesSnoc(before, dir[i].sn);
        }
      }
      if failure.Some? {
        CheckpointFailureSticks(kv0, dir, site, retries, i + 1);
        return;
      }
    }
    assert dir[..|dir|] == dir;
  }

  // ---------------------------------------------------------------------
  // CSV rendering

  type Row = seq<string>

  const YellowHeader: Row := ["Name", "Branch Name", "Branch Address", "Full Branch Name"]

  function BranchRow(company: string, b: Branch): Row
  {
    [company, b.name, b.address, company + " " + b.name]
  }

  /** The rows of one company: one per kept branch, in stored order. */
  function CompanyRows(company: string, bs: seq<Branch>): (rows: seq<Row>)
    ensures |rows| == |FilterInternet(bs)|
    ensures forall k :: 0 <= k < |rows| ==> rows[k] == BranchRow(company, FilterInternet(bs)[k])
  {
    var kept := FilterInternet(bs);
    seq(|kept|, k requires 0 <= k < |kept| => BranchRow(company, kept[k]))
  }

  /** What the rendering loop writes after the header, and the failure that
      stops it (a company without stored branches). */
  datatype Output = Output(rows: seq<Row>, failure: Option<Error>)

  function RenderBody(kv: map<string, Value>, dir: Directory): Output
  {
    if dir == [] then Output([], None)
    else RenderStep(RenderBody(kv, dir[..|dir| - 1]), kv, dir[|dir| - 1])
  }

  /** One turn of the rendering loop, for directory entry `e`. */
  function RenderStep(prev: Output, kv: map<string, Value>, e: Entry): Output
  {
    if prev.failure.Some? then prev
    else match StoredAt(kv, DataKey(e.sn))
      case Some(BranchesBlob(bs)) => Output(prev.rows + CompanyRows(e.name, bs), None)
      case _ => Output(prev.rows, Some(BadPayload(DataKey(e.sn))))
  }

  /** A rendering turn does not look at the rows already written. */
  lemma RenderStepShift(pre: seq<Row>, prev: Output, kv: map<string, Value>, e: Entry)
    ensures RenderStep(Output(pre + prev.rows, prev.failure), kv, e)
         == Output(pre + RenderStep(prev, kv, e).rows, RenderStep(prev, kv, e).failure)
  {
    if prev.failure.None? {
      match StoredAt(kv, DataKey(e.sn))
      case Some(BranchesBlob(bs)) => {
        assert (pre + prev.rows) + CompanyRows(e.name, bs) == pre + (prev.rows + CompanyRows(e.name, bs));
      }
      case _ =>
    }
  }

  /** The rows of a directory are the rows of its parts, in directory order. */
  lemma {:induction false} RenderBodyAppend(kv: map<string, Value>, a: Directory, b: Directory)
    requires RenderBody(kv, a).failure.None?
    ensures RenderBody(kv, a + b) == Output(RenderBody(kv, a).rows + RenderBody(kv, b).rows, RenderBody(kv, b).failure)
    decreases |b|
  {
    if b == [] {
      assert a + b == a;
      assert RenderBody(kv, a).rows + [] == RenderBody(kv, a).rows;
    } else {
      var b0 := b[..|b| - 1];
      var e := b[|b| - 1];
      assert (a + b)[..|a + b| - 1] == a + b0;
      assert (a + b)[|a + b| - 1] == e;
      assert RenderBody(kv, a + b) == RenderStep(RenderBody(kv, a + b0), kv, e);
      RenderBodyAppend(kv, a, b0);
      RenderStepShift(RenderBody(kv, a).rows, RenderBody(kv, b0), kv, e);
    }
  }

  /** When every company has stored branches, each row is a kept branch of
      some directory company, as (company, branch name, branch address,
      "company branch name"). */
  lemma {:induction false} RenderBodyRows(kv: map<string, Value>, dir: Directory, k: nat)
    requires k < |RenderBody(kv, dir).rows|
    ensures exists e, b :: (e in dir && StoredAt(kv, DataKey(e.sn)).Some?
      && StoredAt(kv, DataKey(e.sn)).value.BranchesBlob?
      && b in StoredAt(kv, DataKey(e.sn)).value.branches && IsKept(b)
      && RenderBody(kv, dir).rows[k] == BranchRow(e.name, b))
  {
    var init := dir[..|dir| - 1];
    var e := dir[|dir| - 1];
    var prev := RenderBody(kv, init);
    if k < |prev.rows| {
      RenderBodyRows(kv, init, k);
      var e', b :| e' in init && StoredAt(kv, DataKey(e'.sn)).Some?
        && StoredAt(kv, DataKey(e'.sn)).value.BranchesBlob?
        && b in StoredAt(kv, DataKey(e'.sn)).value.branches && IsKept(b)
        && prev.rows[k] == BranchRow(e'.name, b);
      assert e' in dir;
    } else {
      var bs := StoredAt(kv, DataKey(e.sn)).value.branches;
      var kept := FilterInternet(bs);
      var b := kept[k - |prev.rows|];
      assert b in kept;
      assert RenderBody(kv, dir).rows[k] == BranchRow(e.name, b);
    }
  }

  /** The rendering loop: the header, then the rows of each company in
      directory order, reading each company's branches back from the store. */
  method Render(store: Store, dir: Directory) returns (out: Output)
    ensures out.rows == [YellowHeader] + RenderBody(store.entries, dir).rows
    ensures out.failure == RenderBody(store.entries, dir).failure
  {
    var body: seq<Row> := [];
    for i := 0 to |dir|
      invariant RenderBody(store.entries, dir[..i]) == Output(body, None)
    {
      assert dir[..i + 1][..i] == dir[..i];
      var e := dir[i];
      assert RenderBody(store.entries, dir[..i + 1]) == RenderStep(Output(body, None), store.entries, e);
      var data := store.Get(DataKey(e.sn));
      if data.None? || !data.value.BranchesBlob? {
        RenderBodyFailureSticks(store.entries, dir, i + 1);
        return Output([YellowHeader] + body, Some(BadPayload(DataKey(e.sn))));
      }
      body := body + CompanyRows(e.name, data.value.branches);
    }
    assert dir[..|dir|] == dir;
    return Output([YellowHeader] + body, None);
  }

  lemma {:induction false} RenderBodyFailureSticks(kv: map<string, Value>, dir: Directory, i: nat)
    requires i <= |dir| && RenderBody(kv, dir[..i]).failure.Some?
    ensures RenderBody(kv, dir) == RenderBody(kv, dir[..i])
    decreases |dir| - i
  {
    if i < |dir| {
      assert dir[..i + 1][..i] == dir[..i];
      RenderBodyFailureSticks(kv, dir, i + 1);
    } else {
      assert dir[..i] == dir;
    }
  }

  // ---------------------------------------------------------------------
  // main

  /** `main`: load or discover the directory, crawl every company not yet
      marked OK, then render the CSV from the store. A failure before the
      rendering writes no row. */
  method Run(store: Store, site: Site, retries: int) returns (out: Output, dir: Directory, completed: seq<string>)
    modifies store
    ensures LoadResult(old(store.entries), site).Err? ==>
      && out == Output([], Some(LoadResult(old(store.entries), site).error))
      && dir == [] && completed == [] && store.entries == old(store.entries)
    ensures LoadResult(old(store.entries), site).Ok? ==>
      && dir == LoadResult(old(store.entries), site).value
      && var p := Checkpoint(AfterLoad(old(store.entries), dir), dir, site, retries);
      && store.entries == p.kv && completed == p.completed
      && (p.failure.Some? ==> out == Output([], Some(p.failure.value.1)))
      && (p.failure.None? ==> out.rows == [YellowHeader] + RenderBody(store.entries, dir).rows
                              && out.failure == RenderBody(store.entries, dir).failure)
    ensures SnDictKey in old(store.entries) ==> StoredAt(store.entries, SnDictKey) == StoredAt(old(store.entries), SnDictKey)
    ensures out.rows != [] ==>
      && out.rows == [YellowHeader] + RenderBody(store.entries, dir).rows
      && out.failure == RenderBody(store.entries, dir).failure
      && (forall e :: e in dir ==> StoredAt(store.entries, StatusKey(e.sn)) == Some(StatusOk))
      && (forall e :: e in dir && StoredAt(old(store.entries), StatusKey(e.sn)) != Some(StatusOk) ==> e.sn in completed)
    ensures out.rows == [] ==> out.failure.Some?
    ensures forall sn :: sn in completed ==> StoredAt(old(store.entries), StatusKey(sn)) != Some(StatusOk)
  {
    completed := [];
    var loaded := LoadDirectory(store, site);
    if loaded.Err? {
      return Output([], Some(loaded.error)), [], [];
    }
    dir := loaded.value;
    ghost var kv1 := store.entries;
    assert forall sn :: StoredAt(kv1, StatusKey(sn)) == StoredAt(old(store.entries), StatusKey(sn)) by {
      forall sn ensures StoredAt(kv1, StatusKey(sn)) == StoredAt(old(store.entries), StatusKey(sn)) {
        KeysDistinct(sn, sn);
      }
    }
    var failure;
    failure, completed := CrawlCompanies(store, site, dir, retries);
    CheckpointCompleted(kv1, dir, site, retries);
    CheckpointFrame(kv1, dir, site, retries, SnDictKey);
    forall sn | sn in completed ensures SnDictKey != DataKey(sn) && SnDictKey != StatusKey(sn) {
      KeysDistinct(sn, sn);
    }
    if failure.Some? {
      return Output([], Some(failure.value.1)), dir, completed;
    }
    CheckpointAllDone(kv1, dir, site, retries);
    out := Render(store, dir);
  }
}
