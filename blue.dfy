/** parse_blue.py: read a saved HTML snapshot of a branch list and emit
    (name, address) rows. The parsed document is a tree of tag and text
    nodes; `find` and `.text` are modelled on it. */
module Blue {
  import opened Results

  /** A parsed HTML node: a tag with its name, `id` attribute, classes and
      children, or a text node. */
  datatype Node =
    | Tag(name: string, id: Option<string>, classes: seq<string>, children: seq<Node>)
    | Text(text: string)

  /** The failures that end the script. */
  datatype Error =
    | NotFound          // `find` returned None and the script used the result
    | IndexOutOfRange   // fewer tag children than the fixed positions need
    | NoAddressMatch    // the address pattern matched nowhere in the text
    | TextChild         // the list has a text child, which has no attributes

  /** The selector of one `find` call: a tag name and optionally an id or a
      class the tag must carry. */
  datatype Query = Query(name: string, id: Option<string>, cls: Option<string>)

  predicate Matches(n: Node, q: Query)
  {
    && n.Tag? && n.name == q.name
    && (q.id.Some? ==> n.id == q.id)
    && (q.cls.Some? ==> q.cls.value in n.classes)
  }

  /** `find` over a list of nodes: the first match in document order (each
      node before its descendants, descendants before later siblings). */
  function FindIn(nodes: seq<Node>, q: Query): (r: Option<Node>)
    ensures r.Some? ==> Matches(r.value, q)
    decreases nodes
  {
    if nodes == [] then None
    else if Matches(nodes[0], q) then Some(nodes[0])
    else
      var inner := if nodes[0].Tag? then FindIn(nodes[0].children, q) else None;
      if inner.Some? then inner else FindIn(nodes[1..], q)
  }

  /** A tag's `find`: searches its descendants, not the tag itself. */
  function Find(n: Node, q: Query): (r: Option<Node>)
    ensures r.Some? ==> Matches(r.value, q)
  {
    if n.Tag? then FindIn(n.children, q) else None
  }

  /** `.text`: all text below a node, concatenated in document order. */
  function TextOf(n: Node): string
    decreases n, 0
  {
    match n
    case Text(t) => t
    case Tag(_, _, _, kids) => TextOfAll(kids)
  }

  function TextOfAll(nodes: seq<Node>): string
    decreases nodes, 1
  {
    if nodes == [] then "" else TextOf(nodes[0]) + TextOfAll(nodes[1..])
  }

  /** The tag nodes among `nodes`, in order; text nodes are dropped. */
  function Tags(nodes: seq<Node>): (r: seq<Node>)
    ensures |r| <= |nodes|
    ensures forall k :: 0 <= k < |r| ==> r[k].Tag?
    ensures forall n :: n in r <==> n in nodes && n.Tag?
  {
    if nodes == [] then []
    else if nodes[0].Tag? then [nodes[0]] + Tags(nodes[1..])
    else Tags(nodes[1..])
  }

  /** Keeping the tags distributes over concatenation. */
  lemma {:induction false} TagsAppend(a: seq<Node>, b: seq<Node>)
    ensures Tags(a + b) == Tags(a) + Tags(b)
  {
    if a == [] {
      assert a + b == b;
    } else {
      assert (a + b)[0] == a[0];
      assert (a + b)[1..] == a[1..] + b;
      TagsAppend(a[1..], b);
    }
  }

  /** Text nodes do not take a position: inserting one anywhere leaves the
      tag list as it was. */
  lemma TagsIgnoreText(a: seq<Node>, t: string, b: seq<Node>)
    ensures Tags(a + [Text(t)] + b) == Tags(a + b)
  {
    var x: seq<Node> := [Text(t)];
    assert Tags(x) == Tags(x[1..]) == [];
    TagsAppend(a, x);
    TagsAppend(a + x, b);
    TagsAppend(a, b);
    assert Tags(a + x) == Tags(a);
  }

  // ---------------------------------------------------------------------
  // The address pattern: a run of characters other than an opening
  // parenthesis, optionally followed by a parenthesised part; the first
  // match's group is the address.

  /** Number of `(` characters at the start of `s`. */
  function OpenParens(s: string): (n: nat)
    ensures n <= |s|
    ensures forall k :: 0 <= k < n ==> s[k] == '('
    ensures n < |s| ==> s[n] != '('
  {
    if |s| > 0 && s[0] == '(' then 1 + OpenParens(s[1..]) else 0
  }

  /** Length of the run of non-`(` characters at the start of `s`. */
  function NonParenRun(s: string): (n: nat)
    ensures n <= |s|
    ensures forall k :: 0 <= k < n ==> s[k] != '('
    ensures n < |s| ==> s[n] == '('
  {
    if |s| > 0 && s[0] != '(' then 1 + NonParenRun(s[1..]) else 0
  }

  /** Group 1 of the first match: the search starts at the first character
      that is not `(`, and the greedy `[^\(]+` takes the whole run from there;
      the optional parenthesised tail never shortens it. No match at all when
      every character is `(`. */
  function AddressPrefix(raw: string): (r: Option<string>)
    ensures r.None? <==> forall k :: 0 <= k < |raw| ==> raw[k] == '('
    ensures r.Some? ==> |r.value| > 0 && forall k :: 0 <= k < |r.value| ==> r.value[k] != '('
    ensures r.Some? ==>
      var i := OpenParens(raw);
      && i + |r.value| <= |raw|
      && raw[i..i + |r.value|] == r.value
      && (i + |r.value| == |raw| || raw[i + |r.value|] == '(')
  {
    var i := OpenParens(raw);
    var rest := raw[i..];
    var n := NonParenRun(rest);
    if n == 0 then None
    else
      assert raw[i..i + n] == rest[..n];
      Some(rest[..n])
  }

  /** For a raw address that does not start with `(` the result is the text
      before the first `(`, untrimmed. */
  lemma AddressBeforeParen(raw: string, j: nat)
    requires 0 < j <= |raw| && (j == |raw| || raw[j] == '(')
    requires forall k :: 0 <= k < j ==> raw[k] != '('
    ensures AddressPrefix(raw) == Some(raw[..j])
  {
    assert OpenParens(raw) == 0;
    NonParenRunOf(raw, j);
    assert raw[0..] == raw;
  }

  lemma {:induction false} NonParenRunOf(s: string, j: nat)
    requires j <= |s| && (j == |s| || s[j] == '(')
    requires forall k :: 0 <= k < j ==> s[k] != '('
    ensures NonParenRun(s) == j
  {
    if j > 0 {
      NonParenRunOf(s[1..], j - 1);
    }
  }

  /** The documented shape: "Tel Aviv (Main St)" becomes "Tel Aviv ". */
  lemma AddressExample()
    ensures AddressPrefix("Tel Aviv (Main St)") == Some("Tel Aviv ")
  {
    var raw := "Tel Aviv (Main St)";
    assert raw[9] == '(';
    AddressBeforeParen(raw, 9);
    assert raw[..9] == "Tel Aviv ";
  }

  // ---------------------------------------------------------------------
  // parse_children

  const RowQuery: Query := Query("div", None, Some("row"))
  const LinkQuery: Query := Query("a", None, None)
  const SpanQuery: Query := Query("span", None, None)

  /** The part of `parse_children` after the row lookup: positions 0 and 2
      of the row's tag children, and position 1 of item 2's tag children. */
  function ParseItems(items: seq<Node>): (r: Result<(string, string), Error>)
    ensures r.Ok? ==> (|items| >= 3 && Find(items[0], LinkQuery).Some?
                       && r.value.0 == TextOf(Find(items[0], LinkQuery).value))
    ensures r.Ok? ==> (items[2].Tag? && |Tags(items[2].children)| >= 2
                       && Find(Tags(items[2].children)[1], SpanQuery).Some?
                       && AddressPrefix(TextOf(Find(Tags(items[2].children)[1], SpanQuery).value))
                          == Some(r.value.1))
    ensures (|items| >= 3 && Find(items[0], LinkQuery).Some?
             && items[2].Tag? && |Tags(items[2].children)| >= 2
             && Find(Tags(items[2].children)[1], SpanQuery).Some?
             && AddressPrefix(TextOf(Find(Tags(items[2].children)[1], SpanQuery).value)).Some?)
            ==> r.Ok?
  {
    if |items| == 0 then Err(IndexOutOfRange)
    else match Find(items[0], LinkQuery)
      case None => Err(NotFound)
      case Some(a) =>
        if |items| < 3 then Err(IndexOutOfRange)
        else
          var inner := if items[2].Tag? then Tags(items[2].children) else [];
          if |inner| < 2 then Err(IndexOutOfRange)
          else match Find(inner[1], SpanQuery)
            case None => Err(NotFound)
            case Some(span) =>
              match AddressPrefix(TextOf(span))
              case None => Err(NoAddressMatch)
              case Some(address) => Ok((TextOf(a), address))
  }

  /** One child of the branch list: find its row, then read its items. */
  function ParseChild(child: Node): (r: Result<(string, string), Error>)
    ensures r.Ok? ==> forall k :: 0 <= k < |r.value.1| ==> r.value.1[k] != '('
    ensures r.Ok? ==> (Find(child, RowQuery).Some?
                       && var items := Tags(Find(child, RowQuery).value.children);
                       && |items| >= 3 && Find(items[0], LinkQuery).Some?
                       && r.value.0 == TextOf(Find(items[0], LinkQuery).value)
                       && items[2].Tag? && |Tags(items[2].children)| >= 2
                       && Find(Tags(items[2].children)[1], SpanQuery).Some?
                       && AddressPrefix(TextOf(Find(Tags(items[2].children)[1], SpanQuery).value))
                          == Some(r.value.1))
    ensures (Find(child, RowQuery).Some?
             && var items := Tags(Find(child, RowQuery).value.children);
             && |items| >= 3 && Find(items[0], LinkQuery).Some?
             && items[2].Tag? && |Tags(items[2].children)| >= 2
             && Find(Tags(items[2].children)[1], SpanQuery).Some?
             && AddressPrefix(TextOf(Find(Tags(items[2].children)[1], SpanQuery).value)).Some?)
            ==> r.Ok?
  {
    match Find(child, RowQuery)
    case None => Err(NotFound)
    case Some(row) => ParseItems(Tags(row.children))
  }

  /** Text nodes among a row's children do not shift the positions used. */
  lemma ParseRowIgnoresText(name: string, id: Option<string>, classes: seq<string>,
                            a: seq<Node>, t: string, b: seq<Node>)
    ensures ParseItems(Tags(Tag(name, id, classes, a + [Text(t)] + b).children))
         == ParseItems(Tags(Tag(name, id, classes, a + b).children))
  {
    TagsIgnoreText(a, t, b);
  }

  /** Text nodes among item 2's children do not shift position 1 either. */
  lemma ItemIgnoresText(items: seq<Node>, name: string, id: Option<string>, classes: seq<string>,
                        a: seq<Node>, t: string, b: seq<Node>)
    requires |items| >= 3 && items[2] == Tag(name, id, classes, a + b)
    ensures ParseItems(items[2 := Tag(name, id, classes, a + [Text(t)] + b)]) == ParseItems(items)
  {
    TagsIgnoreText(a, t, b);
  }

  // ---------------------------------------------------------------------
  // main

  const ListQuery: Query := Query("div", Some("branch-list"), None)
  const HeaderId: string := "branch-list-header"

  type Row = seq<string>

  const BlueHeader: Row := ["Name", "Address"]

  /** The loop of `main` over the list's children, as a value: the header
      child is skipped, every other child parsed, in document order. */
  function ParseList(children: seq<Node>): Result<seq<(string, string)>, Error>
  {
    if children == [] then Ok([])
    else ParseStep(ParseList(children[..|children| - 1]), children[|children| - 1])
  }

  /** One more child is one more step. */
  lemma ParseListSnoc(init: seq<Node>, c: Node)
    ensures ParseList(init + [c]) == ParseStep(ParseList(init), c)
  {
    assert (init + [c])[..|init|] == init;
  }

  /** One turn of the loop: a text child fails, the header child is skipped,
      any other child adds its parsed row or its failure ends the loop. */
  function ParseStep(prev: Result<seq<(string, string)>, Error>, c: Node): Result<seq<(string, string)>, Error>
  {
    match prev
    case Err(e) => Err(e)
    case Ok(done) =>
      if c.Text? then Err(TextChild)
      else if c.id == Some(HeaderId) then Ok(done)
      else match ParseChild(c)
        case Err(e) => Err(e)
        case Ok(p) => Ok(done + [p])
  }

  /** The children before and after split the results. */
  lemma {:induction false} ParseListAppend(a: seq<Node>, b: seq<Node>)
    requires ParseList(a).Ok?
    ensures ParseList(a + b) == match ParseList(b)
      case Err(e) => Err(e)
      case Ok(pb) => Ok(ParseList(a).value + pb)
    decreases |b|
  {
    if b == [] {
      assert a + b == a;
      assert ParseList(a).value + [] == ParseList(a).value;
    } else {
      var b0 := b[..|b| - 1];
      assert (a + b)[..|a + b| - 1] == a + b0;
      assert (a + b)[|a + b| - 1] == b[|b| - 1];
      ParseListAppend(a, b0);
      if ParseList(b0).Ok? {
        var c := b[|b| - 1];
        if c.Tag? && c.id != Some(HeaderId) && ParseChild(c).Ok? {
          assert ParseList(a).value + (ParseList(b0).value + [ParseChild(c).value])
              == (ParseList(a).value + ParseList(b0).value) + [ParseChild(c).value];
        }
      }
    }
  }

  /** The header child is skipped wherever it stands. */
  lemma HeaderSkipped(a: seq<Node>, h: Node, b: seq<Node>)
    requires h.Tag? && h.id == Some(HeaderId)
    ensures ParseList(a + [h] + b) == ParseList(a + b)
  {
    if ParseList(a).Ok? {
      assert ParseList([h]) == Ok([]) by {
        ParseListSnoc([], h);
        assert [] + [h] == [h];
      }
      ParseListAppend(a, [h]);
      assert ParseList(a + [h]).value == ParseList(a).value;
      ParseListAppend(a + [h], b);
      ParseListAppend(a, b);
    } else {
      assert (a + [h] + b)[..|a|] == a;
      assert (a + b)[..|a|] == a;
      ParseListStaysErr(a + [h] + b, |a|);
      ParseListStaysErr(a + b, |a|);
    }
  }

  /** Each data child contributes exactly its own parsed row. */
  lemma ParseListSingle(c: Node)
    requires c.Tag? && c.id != Some(HeaderId) && ParseChild(c).Ok?
    ensures ParseList([c]) == Ok([ParseChild(c).value])
  {
    assert [c][..0] == [];
    assert ParseList([c][..0]) == Ok([]);
    assert [c][0] == c;
    assert [] + [ParseChild(c).value] == [ParseChild(c).value];
  }

  function PairRows(ps: seq<(string, string)>): (rows: seq<Row>)
    ensures |rows| == |ps|
    ensures forall k :: 0 <= k < |ps| ==> rows[k] == [ps[k].0, ps[k].1]
  {
    seq(|ps|, k requires 0 <= k < |ps| => [ps[k].0, ps[k].1])
  }

  /** `main`: find the list, walk its children appending parsed rows, then
      write the header row and the rows, unfiltered. */
  method ParseSnapshot(doc: seq<Node>) returns (r: Result<seq<Row>, Error>)
    ensures FindIn(doc, ListQuery).None? ==> r == Err(NotFound)
    ensures FindIn(doc, ListQuery).Some? ==>
      var kids := FindIn(doc, ListQuery).value.children;
      && (r.Ok? <==> ParseList(kids).Ok?)
      && (r.Ok? ==> r.value == [BlueHeader] + PairRows(ParseList(kids).value))
  {
    var list := FindIn(doc, ListQuery);
    if list.None? {
      return Err(NotFound);
    }
    var kids := list.value.children;
    var results: seq<(string, string)> := [];
    for i := 0 to |kids|
      invariant ParseList(kids[..i]) == Ok(results)
    {
      assert kids[..i + 1][..i] == kids[..i];
      var child := kids[i];
      if child.Text? {
        ParseListStaysErr(kids, i + 1);
        return Err(TextChild);
      }
      if child.id == Some(HeaderId) {
        continue;
      }
      var parsed := ParseChild(child);
      if parsed.Err? {
        ParseListStaysErr(kids, i + 1);
        return Err(parsed.error);
      }
      results := results + [parsed.value];
    }
    assert kids[..|kids|] == kids;
    return Ok([BlueHeader] + PairRows(results));
  }

  /** A listing child: a row whose tag children are the name cell, a spacer
      and the address cell, the address in the second tag of the last; a text
      node stands between the first two. */
  function NameCell(name: string): Node
  {
    Tag("div", None, [], [Tag("a", None, [], [Text(name)])])
  }

  function AddressCell(raw: string): Node
  {
    Tag("div", None, [], [Tag("div", None, [], []), Tag("div", None, [], [Tag("span", None, [], [Text(raw)])])])
  }

  const Spacer: Node := Tag("div", None, [], [])

  function ListingChild(name: string, raw: string): Node
  {
    Tag("div", None, [], [Tag("div", None, ["row"], [NameCell(name), Text(" "), Spacer, AddressCell(raw)])])
  }

  lemma FindHere(nodes: seq<Node>, q: Query)
    requires nodes != [] && Matches(nodes[0], q)
    ensures FindIn(nodes, q) == Some(nodes[0])
  {
  }

  lemma TextOfLeaf(n: Node, t: string)
    requires n.Tag? && n.children == [Text(t)]
    ensures TextOf(n) == t
  {
    assert TextOfAll(n.children) == TextOf(Text(t)) + TextOfAll(n.children[1..]);
  }

  lemma NameCellLink(name: string)
    ensures Find(NameCell(name), LinkQuery).Some?
    ensures TextOf(Find(NameCell(name), LinkQuery).value) == name
  {
    var a := NameCell(name).children[0];
    FindHere(NameCell(name).children, LinkQuery);
    TextOfLeaf(a, name);
  }

  lemma AddressCellSpan(raw: string)
    ensures var inner := Tags(AddressCell(raw).children);
      |inner| == 2 && Find(inner[1], SpanQuery).Some?
      && TextOf(Find(inner[1], SpanQuery).value) == raw
  {
    var kids := AddressCell(raw).children;
    assert Tags(kids[1..]) == [kids[1]] + Tags(kids[2..]) && kids[2..] == [];
    assert Tags(kids) == kids;
    var span := kids[1].children[0];
    FindHere(kids[1].children, SpanQuery);
    TextOfLeaf(span, raw);
  }

  lemma ListingChildItems(name: string, raw: string)
    ensures Find(ListingChild(name, raw), RowQuery).Some?
    ensures Tags(Find(ListingChild(name, raw), RowQuery).value.children) == [NameCell(name), Spacer, AddressCell(raw)]
  {
    var c := ListingChild(name, raw);
    FindHere(c.children, RowQuery);
    var k := c.children[0].children;
    assert Tags(k[3..]) == [k[3]] + Tags(k[4..]) && k[4..] == [];
    assert Tags(k[2..]) == [k[2]] + Tags(k[3..]);
    assert Tags(k[1..]) == Tags(k[2..]);
    assert Tags(k) == [k[0]] + Tags(k[1..]);
  }

  lemma ListingChildParses(name: string, raw: string)
    requires AddressPrefix(raw).Some?
    ensures ParseChild(ListingChild(name, raw)) == Ok((name, AddressPrefix(raw).value))
  {
    ListingChildItems(name, raw);
    NameCellLink(name);
    AddressCellSpan(raw);
  }

  /** A header child in front is skipped. */
  lemma HeaderFirst(h: Node, b: seq<Node>)
    requires h.Tag? && h.id == Some(HeaderId)
    ensures ParseList([h] + b) == ParseList(b)
  {
    HeaderSkipped([], h, b);
    assert [] + [h] + b == [h] + b;
    assert [] + b == b;
  }

  /** Two data children give their two rows, in order. */
  lemma ParseListPair(ca: Node, cb: Node)
    requires ca.Tag? && ca.id != Some(HeaderId) && ParseChild(ca).Ok?
    requires cb.Tag? && cb.id != Some(HeaderId) && ParseChild(cb).Ok?
    ensures ParseList([ca, cb]) == Ok([ParseChild(ca).value, ParseChild(cb).value])
  {
    ParseListSingle(ca);
    ParseListSingle(cb);
    ParseListAppend([ca], [cb]);
    assert [ca] + [cb] == [ca, cb];
    assert [ParseChild(ca).value] + [ParseChild(cb).value] == [ParseChild(ca).value, ParseChild(cb).value];
  }

  /** A header child followed by two data children gives their two rows. */
  lemma HeaderThenTwo(h: Node, ca: Node, cb: Node)
    requires h.Tag? && h.id == Some(HeaderId)
    requires ca.Tag? && ca.id != Some(HeaderId) && ParseChild(ca).Ok?
    requires cb.Tag? && cb.id != Some(HeaderId) && ParseChild(cb).Ok?
    ensures ParseList([h, ca, cb]) == Ok([ParseChild(ca).value, ParseChild(cb).value])
  {
    HeaderFirst(h, [ca, cb]);
    assert [h] + [ca, cb] == [h, ca, cb];
    ParseListPair(ca, cb);
  }

  /** The snapshot with a header child and two stores: the rows are
      "Store A" with "Tel Aviv " and "Store B" with "Haifa". */
  lemma SnapshotExample()
    ensures ParseList([Tag("div", Some(HeaderId), [], []),
                       ListingChild("Store A", "Tel Aviv (Main St)"),
                       ListingChild("Store B", "Haifa")])
         == Ok([("Store A", "Tel Aviv "), ("Store B", "Haifa")])
  {
    var header := Tag("div", Some(HeaderId), [], []);
    var ca := ListingChild("Store A", "Tel Aviv (Main St)");
    var cb := ListingChild("Store B", "Haifa");
    assert ParseChild(ca) == Ok(("Store A", "Tel Aviv ")) by {
      AddressExample();
      ListingChildParses("Store A", "Tel Aviv (Main St)");
    }
    assert ParseChild(cb) == Ok(("Store B", "Haifa")) by {
      AddressPlain();
      ListingChildParses("Store B", "Haifa");
    }
    HeaderThenTwo(header, ca, cb);
  }

  lemma AddressPlain()
    ensures AddressPrefix("Haifa") == Some("Haifa")
  {
    AddressBeforeParen("Haifa", 5);
    assert "Haifa"[..5] == "Haifa";
  }

  lemma {:induction false} ParseListStaysErr(kids: seq<Node>, i: nat)
    requires i <= |kids| && ParseList(kids[..i]).Err?
    ensures ParseList(kids) == ParseList(kids[..i])
    decreases |kids| - i
  {
    if i < |kids| {
      assert kids[..i + 1][..i] == kids[..i];
      ParseListStaysErr(kids, i + 1);
    } else {
      assert kids[..i] == kids;
    }
  }
}
