/** The parsed page as the HTML parser hands it over: a forest of elements
    and text nodes, with the queries the extractor makes of it
    (`descendants`, `get_text`, `find` and the `.string` property). */
module Dom {
  import opened Wrappers
  import opened PyStr

  /** One parsed node. Tag and attribute names arrive lower-cased from the
      parser; an attribute written without a value holds "". Comments and
      doctypes are not represented: text extraction never sees them. */
  datatype Node =
    | Element(tag: string, attrs: map<string, string>, children: seq<Node>)
    | Text(text: string)

  /** Every node of a forest in document order: each node before its
      descendants, earlier siblings first (the `descendants` generator). */
  function Nodes(f: seq<Node>): seq<Node>
  {
    if f == [] then [] else Subtree(f[0]) + Nodes(f[1..])
  }

  function Subtree(n: Node): seq<Node>
  {
    match n
    case Text(_) => [n]
    case Element(_, _, cs) => [n] + Nodes(cs)
  }

  lemma {:induction false} NodesAppend(a: seq<Node>, b: seq<Node>)
    ensures Nodes(a + b) == Nodes(a) + Nodes(b)
  {
    if a == [] {
      assert a + b == b;
    } else {
      assert (a + b)[1..] == a[1..] + b;
      NodesAppend(a[1..], b);
    }
  }

  /** The node list of a single element: the element, then its children's nodes. */
  lemma NodesOfOne(n: Node)
    ensures Nodes([n]) == Subtree(n)
  {
    assert [n][1..] == [];
  }

  /** The strings among a node list, in order. */
  function Texts(ns: seq<Node>): seq<string>
  {
    if ns == [] then [] else (if ns[0].Text? then [ns[0].text] else []) + Texts(ns[1..])
  }

  lemma {:induction false} TextsAppend(a: seq<Node>, b: seq<Node>)
    ensures Texts(a + b) == Texts(a) + Texts(b)
  {
    if a == [] {
      assert a + b == b;
    } else {
      assert (a + b)[1..] == a[1..] + b;
      TextsAppend(a[1..], b);
    }
  }

  /** The text nodes of a forest in document order (`_all_strings`). */
  function Strings(f: seq<Node>): seq<string>
  {
    Texts(Nodes(f))
  }

  lemma StringsAppend(a: seq<Node>, b: seq<Node>)
    ensures Strings(a + b) == Strings(a) + Strings(b)
  {
    NodesAppend(a, b);
    TextsAppend(Nodes(a), Nodes(b));
  }

  /** An element contributes exactly its children's strings, a text node its own. */
  lemma StringsOfOne(n: Node)
    ensures n.Text? ==> Strings([n]) == [n.text]
    ensures n.Element? ==> Strings([n]) == Strings(n.children)
  {
    NodesOfOne(n);
    assert [n][1..] == [];
    if n.Element? {
      assert Nodes([n]) == [n] + Nodes(n.children);
      TextsAppend([n], Nodes(n.children));
    } else {
      assert Nodes([n]) == [n];
      assert Texts([n]) == [n.text] + Texts([n][1..]);
    }
  }

  /** `strip=True`: every string stripped, the ones left empty dropped. */
  function Clean(ss: seq<string>): (r: seq<string>)
    ensures |r| <= |ss|
    ensures forall i :: 0 <= i < |r| ==> Stripped(r[i])
  {
    if ss == [] then []
    else
      var rest := Clean(ss[1..]);
      var p := Strip(ss[0]);
      if p == [] then rest
      else
        assert ([p] + rest)[1..] == rest;
        [p] + rest
  }

  lemma {:induction false} CleanAppend(a: seq<string>, b: seq<string>)
    ensures Clean(a + b) == Clean(a) + Clean(b)
  {
    if a == [] {
      assert a + b == b;
    } else {
      assert (a + b)[1..] == a[1..] + b;
      CleanAppend(a[1..], b);
    }
  }

  /** The pieces `get_text(strip=True)` joins. */
  function Pieces(f: seq<Node>): seq<string>
  {
    Clean(Strings(f))
  }

  lemma PiecesAppend(a: seq<Node>, b: seq<Node>)
    ensures Pieces(a + b) == Pieces(a) + Pieces(b)
  {
    StringsAppend(a, b);
    CleanAppend(Strings(a), Strings(b));
  }

  /** `get_text(separator=sep, strip=True)` over a forest. */
  function GetText(f: seq<Node>, sep: string): string
  {
    Join(Pieces(f), sep)
  }

  /** The text is empty exactly when no string has non-whitespace in it,
      whatever the separator; otherwise it starts and ends with
      non-whitespace. */
  lemma GetTextShape(f: seq<Node>, sep: string)
    ensures GetText(f, sep) == [] <==> Pieces(f) == []
    ensures GetText(f, sep) != [] ==> Stripped(GetText(f, sep))
  {
    var ps := Pieces(f);
    var r := GetText(f, sep);
    if ps != [] {
      assert ps[0] != [] && ps[0] <= r;
      assert r[0] == ps[0][0];
      assert IsSuffix(ps[|ps| - 1], r);
      assert r[|r| - 1] == ps[|ps| - 1][|ps[|ps| - 1]| - 1];
    }
  }

  /** `find(name, attrs=...)`: an element of that tag whose attributes
      include every given name/value pair. */
  datatype Query = Query(name: string, attrs: map<string, string>)

  predicate Matches(q: Query, n: Node) {
    && n.Element?
    && n.tag == q.name
    && forall k :: k in q.attrs ==> k in n.attrs && n.attrs[k] == q.attrs[k]
  }

  /** Position of the first node of `ns` that matches. */
  function FirstMatch(ns: seq<Node>, q: Query): (r: Option<nat>)
    ensures r.Some? ==> r.value < |ns| && Matches(q, ns[r.value])
    ensures r.Some? ==> forall j :: 0 <= j < r.value ==> !Matches(q, ns[j])
    ensures r.None? ==> forall j :: 0 <= j < |ns| ==> !Matches(q, ns[j])
  {
    if ns == [] then None
    else if Matches(q, ns[0]) then Some(0)
    else
      match FirstMatch(ns[1..], q)
      case None => None
      case Some(i) => Some(i + 1)
  }

  /** `find`: the first matching element in document order, if any. */
  function Find(f: seq<Node>, q: Query): (r: Option<Node>)
    ensures r.Some? ==> Matches(q, r.value) && r.value in Nodes(f)
    ensures r.None? <==> forall n :: n in Nodes(f) ==> !Matches(q, n)
  {
    match FirstMatch(Nodes(f), q)
    case None => None
    case Some(i) => Some(Nodes(f)[i])
  }

  /** The `.string` property: a text node's own text; for an element, the
      `.string` of its only child, and None unless it has exactly one. */
  function StringOf(n: Node): Option<string>
  {
    match n
    case Text(s) => Some(s)
    case Element(_, _, cs) => if |cs| == 1 then StringOf(cs[0]) else None
  }

  /** When `.string` is defined it is the node's one and only string. */
  lemma {:induction false} StringOfIsOnlyString(n: Node)
    ensures StringOf(n).Some? ==> Strings([n]) == [StringOf(n).value]
  {
    StringsOfOne(n);
    match n
    case Text(_) =>
    case Element(_, _, cs) =>
      if |cs| == 1 {
        StringOfIsOnlyString(cs[0]);
        assert cs == [cs[0]];
      }
  }
}
