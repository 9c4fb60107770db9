/** The pure pieces of crawl_yellow.py: the internet-store filter, the
    company-code pattern, the redirect check of `get`, `parse_branch` and one
    polling attempt of `get_branches`, and the insertion-ordered company
    directory that discovery builds. */
module YellowParse {
  import opened Results
  import opened Text

  /** The fatal conditions of the crawler; each ends the run. */
  datatype Error =
    | UnknownState(url: string)       // redirected somewhere other than the sign-in page
    | SignInFailed(url: string)       // after signing in, still not on the requested page
    | ElementNotFound                 // a fixed lookup path matched nothing
    | SnNotFound(href: string)        // a company link without an embedded code
    | EmptyDirectory                  // discovery found no company
    | NoBranchesFound                 // an attempt found only the header row
    | BadPayload(key: string)         // a stored value missing or of the wrong shape

  datatype Branch = Branch(name: string, address: string)

  // ---------------------------------------------------------------------
  // filter_internet_store

  /** The word "internet" (Hebrew adjective) that marks an online-only branch. */
  const InternetMarker: string := "אינטרנטי"

  /** `filter_internet_store`: no field contains the marker. */
  function NoInternetField(fields: seq<string>): (r: bool)
    ensures r <==> forall i :: 0 <= i < |fields| ==> !Contains(fields[i], InternetMarker)
  {
    if fields == [] then true
    else !Contains(fields[0], InternetMarker) && NoInternetField(fields[1..])
  }

  /** The filter applied to one stored branch, a (name, address) pair. */
  predicate IsKept(b: Branch)
  {
    NoInternetField([b.name, b.address])
  }

  /** A branch is kept exactly when neither its name nor its address has the
      marker as a substring. */
  lemma IsKeptIff(b: Branch)
    ensures IsKept(b) <==> (forall i :: !OccursAt(b.name, InternetMarker, i))
                           && (forall i :: !OccursAt(b.address, InternetMarker, i))
  {
    ContainsIff(b.name, InternetMarker);
    ContainsIff(b.address, InternetMarker);
    assert [b.name, b.address][0] == b.name;
    assert [b.name, b.address][1] == b.address;
  }

  /** The branches the internet filter keeps, in order. */
  function FilterInternet(bs: seq<Branch>): (r: seq<Branch>)
    ensures |r| <= |bs|
    ensures forall b :: b in r <==> b in bs && IsKept(b)
  {
    if bs == [] then []
    else if IsKept(bs[0]) then [bs[0]] + FilterInternet(bs[1..])
    else FilterInternet(bs[1..])
  }

  /** Filtering distributes over concatenation, so the relative order of the
      kept branches is the order of the input. */
  lemma {:induction false} FilterInternetAppend(a: seq<Branch>, b: seq<Branch>)
    ensures FilterInternet(a + b) == FilterInternet(a) + FilterInternet(b)
  {
    if a == [] {
      assert a + b == b;
    } else {
      assert (a + b)[1..] == a[1..] + b;
      FilterInternetAppend(a[1..], b);
    }
  }

  // ---------------------------------------------------------------------
  // The company-code pattern: the literal call prefix, a run of digits
  // captured as group 1, and the closing parenthesis.

  const SnPrefix: string := "javascript:gotoBranches("

  predicate IsDigit(c: char) { '0' <= c <= '9' }

  ghost predicate AllDigits(s: string)
  {
    forall i :: 0 <= i < |s| ==> IsDigit(s[i])
  }

  /** The pattern matches at position `i` of `s` with group 1 equal to `code`. */
  ghost predicate SnMatchAt(s: string, i: int, code: string)
  {
    |code| > 0 && AllDigits(code) && OccursAt(s, SnPrefix + code + ")", i)
  }

  /** Length of the run of digits at the start of `s` (what greedy `\d+` takes). */
  function DigitRun(s: string): (n: nat)
    ensures n <= |s|
    ensures AllDigits(s[..n])
    ensures n < |s| ==> !IsDigit(s[n])
  {
    if |s| > 0 && IsDigit(s[0]) then 1 + DigitRun(s[1..]) else 0
  }

  /** The match of the pattern at position `i`, if any. */
  function SnAt(s: string, i: nat): Option<string>
    requires i <= |s|
  {
    var rest := s[i..];
    if |rest| < |SnPrefix| || rest[..|SnPrefix|] != SnPrefix then None
    else
      var tail := rest[|SnPrefix|..];
      var n := DigitRun(tail);
      if 0 < n < |tail| && tail[n] == ')' then Some(tail[..n]) else None
  }

  /** A match of the pattern at `i` is what `SnAt` finds there. */
  lemma SnAtComplete(s: string, i: nat, code: string)
    requires i <= |s| && SnMatchAt(s, i, code)
    ensures SnAt(s, i) == Some(code)
  {
    var p := SnPrefix + code + ")";
    var rest := s[i..];
    assert rest[..|p|] == p;
    assert rest[..|SnPrefix|] == p[..|SnPrefix|] == SnPrefix;
    var tail := rest[|SnPrefix|..];
    assert tail[..|code| + 1] == code + ")";
    forall k | 0 <= k < |code| ensures IsDigit(tail[k]) {
      assert tail[k] == (code + ")")[k] == code[k];
    }
    assert tail[|code|] == (code + ")")[|code|] == ')';
    DigitRunOf(tail, |code|);
    assert tail[..|code|] == code;
  }

  /** What `SnAt` finds at `i` is a match of the pattern there. */
  lemma SnAtSound(s: string, i: nat, code: string)
    requires i <= |s| && SnAt(s, i) == Some(code)
    ensures SnMatchAt(s, i, code)
  {
    var p := SnPrefix + code + ")";
    var rest := s[i..];
    var tail := rest[|SnPrefix|..];
    var n := DigitRun(tail);
    assert code == tail[..n];
    assert rest[..|p|] == SnPrefix + tail[..n + 1];
    assert tail[..n + 1] == code + ")";
    assert s[i..i + |p|] == rest[..|p|];
  }

  /** `SnAt` is the pattern's match at one position: the group is the whole
      digit run, since `)` is not a digit and `\d+` cannot stop early. */
  lemma SnAtIff(s: string, i: nat, code: string)
    requires i <= |s|
    ensures SnAt(s, i) == Some(code) <==> SnMatchAt(s, i, code)
  {
    if SnMatchAt(s, i, code) {
      SnAtComplete(s, i, code);
    }
    if SnAt(s, i) == Some(code) {
      SnAtSound(s, i, code);
    }
  }

  /** A digit run followed by a non-digit is what `DigitRun` measures. */
  lemma {:induction false} DigitRunOf(s: string, n: nat)
    requires n < |s| && !IsDigit(s[n])
    requires forall k :: 0 <= k < n ==> IsDigit(s[k])
    ensures DigitRun(s) == n
  {
    if n > 0 {
      DigitRunOf(s[1..], n - 1);
    }
  }

  /** The first company-code match at or after position `from`: the leftmost one. */
  function FindSn(s: string, from: nat): Option<string>
    requires from <= |s|
    decreases |s| - from
  {
    if SnAt(s, from).Some? then SnAt(s, from)
    else if from == |s| then None
    else FindSn(s, from + 1)
  }

  /** A found code is the match at some position with no match before it;
      nothing is found only when no position matches. */
  lemma {:induction false} FindSnSpec(s: string, from: nat)
    requires from <= |s|
    ensures FindSn(s, from).Some? ==> exists i :: from <= i <= |s| && SnAt(s, i) == FindSn(s, from)
                                                 && forall j :: from <= j < i ==> SnAt(s, j).None?
    ensures FindSn(s, from).None? ==> forall j :: from <= j <= |s| ==> SnAt(s, j).None?
    decreases |s| - from
  {
    if SnAt(s, from).Some? {
      assert from <= from <= |s| && SnAt(s, from) == FindSn(s, from);
    } else if from < |s| {
      FindSnSpec(s, from + 1);
    }
  }

  /** The code of a company link: group 1 of the first match in `href`, or
      `None` when the pattern does not occur (the discovery assertion fails). */
  function ExtractSn(href: string): Option<string>
  {
    FindSn(href, 0)
  }

  /** The extracted code is the digit group of the leftmost occurrence of
      `javascript:gotoBranches(<digits>)`, and there is none exactly when no
      position matches. */
  lemma ExtractSnSpec(href: string)
    ensures ExtractSn(href).Some? ==>
      var code := ExtractSn(href).value;
      |code| > 0 && AllDigits(code)
      && exists i :: SnMatchAt(href, i, code) && forall j, c :: 0 <= j < i ==> !SnMatchAt(href, j, c)
    ensures ExtractSn(href).None? <==> forall j, c :: !SnMatchAt(href, j, c)
  {
    FindSnSpec(href, 0);
    if ExtractSn(href).Some? {
      var code := ExtractSn(href).value;
      var i :| 0 <= i <= |href| && SnAt(href, i) == Some(code)
               && forall j :: 0 <= j < i ==> SnAt(href, j).None?;
      SnAtIff(href, i, code);
      forall j, c | 0 <= j < i ensures !SnMatchAt(href, j, c) {
        SnAtIff(href, j, c);
      }
    } else {
      forall j, c ensures !SnMatchAt(href, j, c) {
        if 0 <= j <= |href| {
          SnAtIff(href, j, c);
        }
      }
    }
  }

  /** The concrete link shape the directory page uses. */
  lemma ExtractSnExample()
    ensures ExtractSn("javascript:gotoBranches(1234)") == Some("1234")
  {
    var s := "javascript:gotoBranches(1234)";
    assert s[0..][..|SnPrefix|] == SnPrefix;
    var tail := s[0..][|SnPrefix|..];
    assert tail == "1234)";
    DigitRunOf(tail, 4);
    assert tail[..4] == "1234";
    assert SnAt(s, 0) == Some("1234");
  }

  // ---------------------------------------------------------------------
  // Navigating the browser to a page, with the sign-in check

  /** What the browser does when it navigates to a URL: the URL it lands on, and,
      should it be the sign-in page, the URL after `sign_in` submits the form
      (`None` when the form elements cannot be found). */
  datatype Landing = Landing(url: string, afterSignIn: Option<string>)

  const SignInPage: string := "signin.aspx"

  /** `get`: navigate, and when redirected to the sign-in page sign in and
      demand to end up on the requested page. The result is the browser's
      current URL afterwards. */
  function Get(url: string, landing: Landing): (r: Result<string, Error>)
    ensures r.Ok? ==> r.value == url
    ensures r.Ok? <==> (landing.url == url
                        || (Contains(landing.url, SignInPage) && landing.afterSignIn == Some(url)))
    ensures (r.Err? && r.error.UnknownState?) <==> (landing.url != url && !Contains(landing.url, SignInPage))
    ensures r.Err? ==> r.error.UnknownState? || r.error.SignInFailed? || r.error.ElementNotFound?
  {
    if landing.url == url then Ok(url)
    else if !Contains(landing.url, SignInPage) then Err(UnknownState(landing.url))
    else match landing.afterSignIn
      case None => Err(ElementNotFound)
      case Some(after) => if after == url then Ok(url) else Err(SignInFailed(after))
  }

  // ---------------------------------------------------------------------
  // parse_branch and one attempt of get_branches

  const HeaderId: string := "branch-list-header"

  /** A child of the branch list: its `id` attribute, and the name and
      address texts of the first and second cells of its nested row, `None`
      when that nested path does not exist. */
  datatype BranchElement = BranchElement(id: Option<string>, cells: Option<Branch>)

  predicate IsHeader(e: BranchElement) { e.id == Some(HeaderId) }

  /** `parse_branch`: `None` for the header row, the branch otherwise; a
      malformed element raises. */
  function ParseBranch(e: BranchElement): (r: Result<Option<Branch>, Error>)
    ensures IsHeader(e) ==> r == Ok(None)
    ensures !IsHeader(e) ==> (r.Ok? <==> e.cells.Some?)
    ensures !IsHeader(e) && r.Ok? ==> r.value == Some(e.cells.value)
  {
    if IsHeader(e) then Ok(None)
    else match e.cells
      case None => Err(ElementNotFound)
      case Some(b) => Ok(Some(b))
  }

  /** Parse every element in order and keep the non-header results; the
      first malformed element is the error. */
  function ParseBranches(es: seq<BranchElement>): Result<seq<Branch>, Error>
  {
    if es == [] then Ok([])
    else ConsBranch(ParseBranch(es[0]), ParseBranches(es[1..]))
  }

  /** The parse of one element in front of a parsed rest: the first failure
      wins, a header adds nothing, any other element adds its branch. */
  function ConsBranch(head: Result<Option<Branch>, Error>, rest: Result<seq<Branch>, Error>): Result<seq<Branch>, Error>
  {
    match head
    case Err(e) => Err(e)
    case Ok(h) =>
      match rest
      case Err(e) => Err(e)
      case Ok(tail) => Ok(if h.Some? then [h.value] + tail else tail)
  }

  /** One more element in front is one more step. */
  lemma ParseBranchesCons(x: BranchElement, rest: seq<BranchElement>)
    ensures ParseBranches([x] + rest) == ConsBranch(ParseBranch(x), ParseBranches(rest))
  {
    assert ([x] + rest)[0] == x;
    assert ([x] + rest)[1..] == rest;
  }

  /** The elements other than the header row, in document order. */
  function NonHeader(es: seq<BranchElement>): (r: seq<BranchElement>)
    ensures forall e :: e in r <==> e in es && !IsHeader(e)
  {
    if es == [] then []
    else if IsHeader(es[0]) then NonHeader(es[1..])
    else [es[0]] + NonHeader(es[1..])
  }

  /** Parsing succeeds exactly when every non-header element is well formed,
      and then yields their branches position by position: the header never
      appears and the order of the others is kept. */
  lemma {:induction false} ParseBranchesSpec(es: seq<BranchElement>)
    ensures ParseBranches(es).Ok? <==> forall e :: e in NonHeader(es) ==> e.cells.Some?
    ensures ParseBranches(es).Ok? ==>
      var bs := ParseBranches(es).value;
      |bs| == |NonHeader(es)| && forall k :: 0 <= k < |bs| ==> bs[k] == NonHeader(es)[k].cells.value
  {
    if es != [] {
      ParseBranchesSpec(es[1..]);
      if !IsHeader(es[0]) && es[0].cells.Some? {
        assert es[0] in NonHeader(es);
        if ParseBranches(es[1..]).Ok? {
          var tail := ParseBranches(es[1..]).value;
          assert ParseBranches(es).value == [es[0].cells.value] + tail;
        }
      } else if !IsHeader(es[0]) {
        assert es[0] in NonHeader(es);
      }
    }
  }

  /** A step in front of a parsed list distributes over appending a parsed
      list behind it. */
  lemma ConsBranchAppend(head: Result<Option<Branch>, Error>, ta: seq<Branch>, tb: seq<Branch>)
    requires ConsBranch(head, Ok(ta)).Ok?
    ensures ConsBranch(head, Ok(ta + tb)) == Ok(ConsBranch(head, Ok(ta)).value + tb)
  {
    if head.value.Some? {
      assert [head.value.value] + (ta + tb) == ([head.value.value] + ta) + tb;
    }
  }

  /** Concatenated element lists parse to the concatenated branch lists. */
  lemma {:induction false} ParseBranchesAppend(a: seq<BranchElement>, b: seq<BranchElement>)
    requires ParseBranches(a).Ok? && ParseBranches(b).Ok?
    ensures ParseBranches(a + b) == Ok(ParseBranches(a).value + ParseBranches(b).value)
  {
    if a == [] {
      assert a + b == b;
      assert ParseBranches(a).value + ParseBranches(b).value == ParseBranches(b).value;
    } else {
      assert ParseBranches(a + b) == ConsBranch(ParseBranch(a[0]), ParseBranches(a[1..] + b)) by {
        assert a + b == [a[0]] + (a[1..] + b);
        ParseBranchesCons(a[0], a[1..] + b);
      }
      ParseBranchesAppend(a[1..], b);
      ConsBranchAppend(ParseBranch(a[0]), ParseBranches(a[1..]).value, ParseBranches(b).value);
    }
  }

  /** Wherever the header row stands, removing it changes nothing. */
  lemma {:induction false} HeaderAnywhere(a: seq<BranchElement>, h: BranchElement, b: seq<BranchElement>)
    requires IsHeader(h)
    ensures ParseBranches(a + [h] + b) == ParseBranches(a + b)
  {
    if a == [] {
      assert a + [h] + b == [h] + b;
      assert ([h] + b)[1..] == b;
      assert a + b == b;
    } else {
      assert (a + [h] + b)[0] == a[0] && (a + b)[0] == a[0];
      assert (a + [h] + b)[1..] == a[1..] + [h] + b;
      assert (a + b)[1..] == a[1..] + b;
      HeaderAnywhere(a[1..], h, b);
    }
  }

  /** What one lookup of the `branch-list` container and its children sees. */
  datatype Poll = ListMissing | Listed(elements: seq<BranchElement>)

  /** One call of the decorated `get_branches`: the non-empty parsed list,
      or the exception it raises. */
  function Attempt(p: Poll): (r: Result<seq<Branch>, Error>)
    ensures r.Ok? ==> |r.value| > 0 && p.Listed? && ParseBranches(p.elements) == r
    ensures p.Listed? && ParseBranches(p.elements).Ok? && ParseBranches(p.elements).value != [] ==> r.Ok?
  {
    match p
    case ListMissing => Err(ElementNotFound)
    case Listed(es) =>
      match ParseBranches(es)
      case Err(e) => Err(e)
      case Ok(bs) => if |bs| == 0 then Err(NoBranchesFound) else Ok(bs)
  }

  // ---------------------------------------------------------------------
  // The company directory: a Python dict from name to code, which keeps
  // insertion order and, on a repeated name, keeps the position and takes
  // the new value.

  datatype Entry = Entry(name: string, sn: string)

  type Directory = seq<Entry>

  function Names(d: Directory): set<string>
  {
    set e | e in d :: e.name
  }

  ghost predicate DistinctNames(d: Directory)
  {
    forall i, j :: 0 <= i < j < |d| ==> d[i].name != d[j].name
  }

  /** `d[name]` (by lookup). */
  function Lookup(d: Directory, name: string): Option<string>
  {
    if d == [] then None
    else if d[0].name == name then Some(d[0].sn)
    else Lookup(d[1..], name)
  }

  /** `d[name] = sn`. */
  function Put(d: Directory, name: string, sn: string): (r: Directory)
    ensures Names(r) == Names(d) + {name}
    ensures |r| == if name in Names(d) then |d| else |d| + 1
  {
    if d == [] then [Entry(name, sn)]
    else if d[0].name == name then
      assert Names(d) == {name} + Names(d[1..]);
      assert Names([Entry(name, sn)] + d[1..]) == {name} + Names(d[1..]);
      [Entry(name, sn)] + d[1..]
    else
      var t := Put(d[1..], name, sn);
      assert Names(d) == {d[0].name} + Names(d[1..]);
      assert Names([d[0]] + t) == {d[0].name} + Names(t);
      [d[0]] + t
  }

  /** A name not yet in the directory is appended at its end. */
  lemma {:induction false} PutFresh(d: Directory, name: string, sn: string)
    requires name !in Names(d)
    ensures Put(d, name, sn) == d + [Entry(name, sn)]
  {
    if d != [] {
      assert Names(d) == {d[0].name} + Names(d[1..]);
      PutFresh(d[1..], name, sn);
      assert [d[0]] + (d[1..] + [Entry(name, sn)]) == d + [Entry(name, sn)];
    }
  }

  /** In a directory with distinct names, the first name occurs nowhere else. */
  lemma DistinctHead(d: Directory)
    requires d != [] && DistinctNames(d)
    ensures d[0].name !in Names(d[1..])
  {
    forall e | e in d[1..] ensures e.name != d[0].name {
      var j :| 0 <= j < |d[1..]| && d[1..][j] == e;
      assert d[j + 1] == e;
    }
  }

  /** Prepending an entry whose name is new keeps names distinct. */
  lemma DistinctCons(x: Entry, t: Directory)
    requires DistinctNames(t) && x.name !in Names(t)
    ensures DistinctNames([x] + t)
  {
    forall k | 0 <= k < |t| ensures t[k].name != x.name {
      assert t[k] in t;
    }
    var r := [x] + t;
    assert forall k :: 0 < k < |r| ==> r[k] == t[k - 1];
  }

  /** `d[name] = sn` keeps the names of a directory distinct. */
  lemma {:induction false} PutDistinct(d: Directory, name: string, sn: string)
    requires DistinctNames(d)
    ensures DistinctNames(Put(d, name, sn))
  {
    if d != [] {
      var r := Put(d, name, sn);
      if d[0].name == name {
        assert forall k :: 0 <= k < |r| ==> r[k].name == d[k].name;
      } else {
        assert DistinctNames(d[1..]);
        PutDistinct(d[1..], name, sn);
        DistinctHead(d);
        DistinctCons(d[0], Put(d[1..], name, sn));
      }
    }
  }

  /** After `d[name] = sn`, `name` maps to `sn` and every other name keeps
      its code. */
  lemma {:induction false} PutLookup(d: Directory, name: string, sn: string, other: string)
    ensures Lookup(Put(d, name, sn), name) == Some(sn)
    ensures other != name ==> Lookup(Put(d, name, sn), other) == Lookup(d, other)
  {
    if d != [] && d[0].name != name {
      PutLookup(d[1..], name, sn, other);
    }
  }

  /** Assigning a name that is present replaces its first entry in place:
      every entry keeps its position and only that entry's code changes. */
  lemma {:induction false} PutReplaces(d: Directory, i: nat, name: string, sn: string)
    requires i < |d| && d[i].name == name
    requires forall j :: 0 <= j < i ==> d[j].name != name
    ensures Put(d, name, sn) == d[i := Entry(name, sn)]
  {
    var e := Entry(name, sn);
    if i == 0 {
      assert [e] + d[1..] == d[0 := e];
    } else {
      assert d[0].name != name;
      PutReplaces(d[1..], i - 1, name, sn);
      var t := d[1..][i - 1 := e];
      assert [d[0]] + t == d[i := e] by {
        assert forall k :: 0 < k < |d| ==> ([d[0]] + t)[k] == t[k - 1];
      }
    }
  }

  /** In a directory with distinct names, re-assigning the name of entry `i`
      changes that entry's code and nothing else. */
  lemma PutExisting(d: Directory, i: nat, sn: string)
    requires i < |d| && DistinctNames(d)
    ensures Put(d, d[i].name, sn) == d[i := Entry(d[i].name, sn)]
  {
    PutReplaces(d, i, d[i].name, sn);
  }

  /** A name has a code exactly when it is in the directory. */
  lemma {:induction false} LookupNames(d: Directory, name: string)
    ensures Lookup(d, name).Some? <==> name in Names(d)
  {
    if d != [] {
      assert Names(d) == {d[0].name} + Names(d[1..]);
      LookupNames(d[1..], name);
    }
  }
}
