/** The two tree rewrites `_clean_html` performs before linearising the
    page: the denylist removal and the empty-element sweep. */
module Cleanup {
  import opened PyStr
  import opened Dom

  /** The tags `_clean_html` removes, in the order its loop removes them. */
  const Denylist: seq<string> :=
    ["script", "style", "noscript", "iframe", "ad", "img", "form",
     "nav", "aside", "link", "button", "figure", "input"]

  function TagSet(tags: seq<string>): set<string> {
    set t | t in tags
  }

  predicate Denied(n: Node, deny: set<string>) {
    n.Element? && n.tag in deny
  }

  // ---------------------------------------------------------------------
  // Denylist removal

  /** Every element whose tag is in `deny` removed with its whole subtree. */
  function Prune(f: seq<Node>, deny: set<string>): seq<Node>
  {
    if f == [] then [] else PruneNode(f[0], deny) + Prune(f[1..], deny)
  }

  function PruneNode(n: Node, deny: set<string>): seq<Node>
  {
    match n
    case Text(_) => [n]
    case Element(t, a, cs) => if t in deny then [] else [Element(t, a, Prune(cs, deny))]
  }

  lemma {:induction false} PruneAppend(a: seq<Node>, b: seq<Node>, deny: set<string>)
    ensures Prune(a + b, deny) == Prune(a, deny) + Prune(b, deny)
  {
    if a == [] {
      assert a + b == b;
    } else {
      assert (a + b)[1..] == a[1..] + b;
      PruneAppend(a[1..], b, deny);
    }
  }

  lemma PruneOne(n: Node, deny: set<string>)
    ensures Prune([n], deny) == PruneNode(n, deny)
  {
    assert [n][1..] == [];
  }

  /** One round of the loop over the denylist: `find_all(tag)` lists every
      element with that tag in document order and each is decomposed. An
      element nested in an earlier match is already gone with it, so the
      round removes every such element with its subtree. */
  function RemoveTag(f: seq<Node>, tag: string): seq<Node>
  {
    Prune(f, {tag})
  }

  /** The rounds of the loop, one tag after another. */
  function RemoveTags(f: seq<Node>, tags: seq<string>): seq<Node>
    decreases |tags|
  {
    if tags == [] then f else RemoveTags(RemoveTag(f, tags[0]), tags[1..])
  }

  /** The denylist loop of `_clean_html`. */
  function StripDenylisted(f: seq<Node>): seq<Node>
  {
    RemoveTags(f, Denylist)
  }

  /** A forest without denied elements is left unchanged. */
  lemma {:induction false} PruneClean(f: seq<Node>, deny: set<string>)
    requires forall n :: n in Nodes(f) ==> !Denied(n, deny)
    ensures Prune(f, deny) == f
  {
    if f != [] {
      assert Nodes(f) == Subtree(f[0]) + Nodes(f[1..]);
      assert f == [f[0]] + f[1..];
      PruneClean(f[1..], deny);
      match f[0]
      case Text(_) =>
      case Element(t, a, cs) =>
        assert Subtree(f[0]) == [f[0]] + Nodes(cs);
        assert f[0] in Nodes(f);
        PruneClean(cs, deny);
    }
  }

  /** Pruning twice is pruning once by both sets. */
  lemma {:induction false} PruneTwice(f: seq<Node>, a: set<string>, b: set<string>)
    ensures Prune(Prune(f, a), b) == Prune(f, a + b)
  {
    if f != [] {
      PruneAppend(PruneNode(f[0], a), Prune(f[1..], a), b);
      PruneTwice(f[1..], a, b);
      match f[0]
      case Text(_) =>
        PruneOne(f[0], b);
      case Element(t, at, cs) =>
        if t !in a {
          PruneOne(Element(t, at, Prune(cs, a)), b);
          PruneTwice(cs, a, b);
        }
    }
  }

  /** The tag-by-tag loop removes exactly what one pass over the whole set
      removes, so the order of the tags does not matter. */
  lemma {:induction false} RemoveTagsIsPrune(f: seq<Node>, tags: seq<string>)
    ensures RemoveTags(f, tags) == Prune(f, TagSet(tags))
    decreases |tags|
  {
    if tags == [] {
      assert TagSet(tags) == {};
      PruneClean(f, {});
    } else {
      RemoveTagsIsPrune(RemoveTag(f, tags[0]), tags[1..]);
      PruneTwice(f, {tags[0]}, TagSet(tags[1..]));
      assert {tags[0]} + TagSet(tags[1..]) == TagSet(tags);
    }
  }

  lemma StripDenylistedIsPrune(f: seq<Node>)
    ensures StripDenylisted(f) == Prune(f, TagSet(Denylist))
  {
    RemoveTagsIsPrune(f, Denylist);
  }

  /** After pruning, no element with a denied tag is left anywhere. */
  lemma {:induction false} NoDeniedSurvives(f: seq<Node>, deny: set<string>)
    ensures forall n :: n in Nodes(Prune(f, deny)) ==> !Denied(n, deny)
  {
    if f != [] {
      NodesAppend(PruneNode(f[0], deny), Prune(f[1..], deny));
      NoDeniedSurvives(f[1..], deny);
      match f[0]
      case Text(_) =>
        NodesOfOne(f[0]);
      case Element(t, a, cs) =>
        if t !in deny {
          NoDeniedSurvives(cs, deny);
          NodesOfOne(Element(t, a, Prune(cs, deny)));
        }
    }
  }

  /** No element of the denylist survives `_clean_html`'s loop. */
  lemma NoDenylistedTagRemains(f: seq<Node>)
    ensures forall n :: n in Nodes(StripDenylisted(f)) ==> !(n.Element? && n.tag in Denylist)
  {
    StripDenylistedIsPrune(f);
    NoDeniedSurvives(f, TagSet(Denylist));
  }

  // ---------------------------------------------------------------------
  // Ancestry: which nodes sit inside which elements

  /** Every node of a forest in document order, paired with the tags of its
      ancestors, outermost first, after the tags `above` the forest. */
  function Placed(f: seq<Node>, above: seq<string>): (r: seq<(Node, seq<string>)>)
    ensures forall i :: 0 <= i < |r| ==> above <= r[i].1
  {
    if f == [] then []
    else
      var h := PlacedOne(f[0], above);
      var t := Placed(f[1..], above);
      assert forall i :: |h| <= i < |h| + |t| ==> (h + t)[i] == t[i - |h|];
      h + t
  }

  function PlacedOne(n: Node, above: seq<string>): (r: seq<(Node, seq<string>)>)
    ensures forall i :: 0 <= i < |r| ==> above <= r[i].1
  {
    match n
    case Text(_) => [(n, above)]
    case Element(t, _, cs) =>
      var below := Placed(cs, above + [t]);
      assert forall i :: 0 <= i < |below| ==> above <= above + [t] <= below[i].1;
      [(n, above)] + below
  }

  predicate Avoids(tags: seq<string>, deny: set<string>) {
    forall i :: 0 <= i < |tags| ==> tags[i] !in deny
  }

  /** The strings of the placed nodes none of whose ancestors is denied. */
  function VisibleTexts(ps: seq<(Node, seq<string>)>, deny: set<string>): seq<string>
  {
    if ps == [] then []
    else
      (if ps[0].0.Text? && Avoids(ps[0].1, deny) then [ps[0].0.text] else [])
      + VisibleTexts(ps[1..], deny)
  }

  lemma {:induction false} VisibleAppend(a: seq<(Node, seq<string>)>, b: seq<(Node, seq<string>)>, deny: set<string>)
    ensures VisibleTexts(a + b, deny) == VisibleTexts(a, deny) + VisibleTexts(b, deny)
  {
    if a == [] {
      assert a + b == b;
    } else {
      assert (a + b)[1..] == a[1..] + b;
      VisibleAppend(a[1..], b, deny);
    }
  }

  lemma VisibleOne(p: (Node, seq<string>), deny: set<string>)
    ensures VisibleTexts([p], deny) == if p.0.Text? && Avoids(p.1, deny) then [p.0.text] else []
  {
    assert [p][1..] == [];
  }

  /** Pruning keeps exactly the strings that have no denied ancestor, in
      their original order: no text from inside a denied element is left,
      and every other string is. */
  lemma {:induction false} PrunedStrings(f: seq<Node>, above: seq<string>, deny: set<string>)
    ensures VisibleTexts(Placed(f, above), deny)
         == if Avoids(above, deny) then Strings(Prune(f, deny)) else []
  {
    if f != [] {
      VisibleAppend(PlacedOne(f[0], above), Placed(f[1..], above), deny);
      PrunedStrings(f[1..], above, deny);
      PrunedStringsOne(f[0], above, deny);
      StringsAppend(PruneNode(f[0], deny), Prune(f[1..], deny));
    }
  }

  lemma {:induction false} PrunedStringsOne(n: Node, above: seq<string>, deny: set<string>)
    ensures VisibleTexts(PlacedOne(n, above), deny)
         == if Avoids(above, deny) then Strings(PruneNode(n, deny)) else []
  {
    match n
    case Text(_) =>
      VisibleOne((n, above), deny);
      StringsOfOne(n);
    case Element(t, a, cs) =>
      VisibleAppend([(n, above)], Placed(cs, above + [t]), deny);
      VisibleOne((n, above), deny);
      PrunedStrings(cs, above + [t], deny);
      AvoidsSnoc(above, t, deny);
      if t !in deny {
        StringsOfOne(Element(t, a, Prune(cs, deny)));
      } else {
        assert Strings([]) == [];
      }
  }

  lemma AvoidsSnoc(above: seq<string>, t: string, deny: set<string>)
    ensures Avoids(above + [t], deny) <==> Avoids(above, deny) && t !in deny
  {
    assert forall i :: 0 <= i < |above| ==> (above + [t])[i] == above[i];
    assert (above + [t])[|above|] == t;
  }

  /** An element none of whose ancestors is denied, and which is not denied
      itself, survives the removal in place, its own denied descendants
      removed and nothing else of it changed. */
  lemma {:induction false} SurvivorKept(f: seq<Node>, above: seq<string>, deny: set<string>, n: Node, anc: seq<string>)
    requires (n, anc) in Placed(f, above)
    requires Avoids(anc, deny) && !Denied(n, deny)
    ensures |PruneNode(n, deny)| == 1 && PruneNode(n, deny)[0] in Nodes(Prune(f, deny))
  {
    var h := f[0];
    NodesAppend(PruneNode(h, deny), Prune(f[1..], deny));
    if (n, anc) in Placed(f[1..], above) {
      SurvivorKept(f[1..], above, deny, n, anc);
    } else {
      assert (n, anc) in PlacedOne(h, above);
      match h
      case Text(_) =>
        NodesOfOne(h);
      case Element(t, a, cs) =>
        if (n, anc) == (h, above) {
          NodesOfOne(PruneNode(h, deny)[0]);
        } else {
          assert (n, anc) in Placed(cs, above + [t]);
          assert above + [t] <= anc;
          assert anc[|above|] == t;
          SurvivorKept(cs, above + [t], deny, n, anc);
          NodesOfOne(Element(t, a, Prune(cs, deny)));
        }
    }
  }

  /** A subtree with no denied element anywhere on its root path or inside
      it is found unchanged in the pruned forest. */
  lemma CleanSubtreeKept(f: seq<Node>, deny: set<string>, n: Node, anc: seq<string>)
    requires (n, anc) in Placed(f, [])
    requires Avoids(anc, deny)
    requires forall m :: m in Nodes([n]) ==> !Denied(m, deny)
    ensures n in Nodes(Prune(f, deny))
  {
    NodesOfOne(n);
    SurvivorKept(f, [], deny, n, anc);
    PruneClean([n], deny);
    PruneOne(n, deny);
  }

  // ---------------------------------------------------------------------
  // Empty-element sweep

  /** `not element.get_text(strip=True)`: an element whose strings are all
      whitespace. */
  predicate BlankElement(n: Node) {
    n.Element? && GetText(n.children, "") == []
  }

  /** The loop `for element in soup.find_all(): if not
      element.get_text(strip=True): element.decompose()`. It visits the
      elements in document order, so when it reaches an element none of that
      element's descendants has been touched yet: the blankness it tests is
      that of the element as it stood after the denylist pass. A blank
      element goes with its subtree; a non-blank one stays and its children
      are visited in turn. Text nodes are never candidates. */
  function Sweep(f: seq<Node>): seq<Node>
  {
    if f == [] then [] else SweepNode(f[0]) + Sweep(f[1..])
  }

  function SweepNode(n: Node): seq<Node>
  {
    match n
    case Text(_) => [n]
    case Element(t, a, cs) => if GetText(cs, "") == [] then [] else [Element(t, a, Sweep(cs))]
  }

  /** The sweep removes no non-whitespace text: the stripped pieces are the
      same before and after. */
  lemma {:induction false} SweepPieces(f: seq<Node>)
    ensures Pieces(Sweep(f)) == Pieces(f)
  {
    if f != [] {
      var n := f[0];
      assert f == [n] + f[1..];
      PiecesAppend([n], f[1..]);
      PiecesAppend(SweepNode(n), Sweep(f[1..]));
      SweepPieces(f[1..]);
      StringsOfOne(n);
      match n
      case Text(_) =>
      case Element(t, a, cs) =>
        GetTextShape(cs, "");
        if GetText(cs, "") != [] {
          SweepPieces(cs);
          StringsOfOne(Element(t, a, Sweep(cs)));
        } else {
          assert Pieces([]) == [];
        }
    }
  }

  /** After the sweep every remaining element has non-whitespace text. */
  lemma {:induction false} SweepLeavesNoBlank(f: seq<Node>)
    ensures forall n :: n in Nodes(Sweep(f)) ==> !BlankElement(n)
  {
    if f != [] {
      NodesAppend(SweepNode(f[0]), Sweep(f[1..]));
      SweepLeavesNoBlank(f[1..]);
      match f[0]
      case Text(_) =>
        NodesOfOne(f[0]);
      case Element(t, a, cs) =>
        if GetText(cs, "") != [] {
          var e := Element(t, a, Sweep(cs));
          NodesOfOne(e);
          SweepLeavesNoBlank(cs);
          SweepPieces(cs);
          GetTextShape(cs, "");
          GetTextShape(Sweep(cs), "");
        }
    }
  }

  /** A forest with no blank element is left unchanged by the sweep. */
  lemma {:induction false} SweepIdentity(f: seq<Node>)
    requires forall n :: n in Nodes(f) ==> !BlankElement(n)
    ensures Sweep(f) == f
  {
    if f != [] {
      assert Nodes(f) == Subtree(f[0]) + Nodes(f[1..]);
      assert f == [f[0]] + f[1..];
      SweepIdentity(f[1..]);
      match f[0]
      case Text(_) =>
      case Element(t, a, cs) =>
        assert Subtree(f[0]) == [f[0]] + Nodes(cs);
        assert f[0] in Nodes(f);
        SweepIdentity(cs);
    }
  }

  /** One document-order pass already reaches the fixed point that repeated
      passes would: a second pass removes nothing, and the sweep leaves a
      forest unchanged exactly when it holds no blank element. */
  lemma SweepFixedPoint(f: seq<Node>)
    ensures Sweep(Sweep(f)) == Sweep(f)
    ensures Sweep(f) == f <==> forall n :: n in Nodes(f) ==> !BlankElement(n)
  {
    SweepLeavesNoBlank(f);
    SweepIdentity(Sweep(f));
    if forall n :: n in Nodes(f) ==> !BlankElement(n) {
      SweepIdentity(f);
    }
  }

  // ---------------------------------------------------------------------
  // The whole of `_clean_html`

  /** `_clean_html`: the denylist loop, the empty-element sweep, then
      `get_text(separator="\n", strip=True)` of what is left. */
  function CleanHtml(f: seq<Node>): string
  {
    GetText(Sweep(StripDenylisted(f)), "\n")
  }

  /** The cleaned text is the stripped non-blank strings that have no
      denylisted ancestor, in document order, joined by newlines. The sweep
      makes no difference to it. It is empty exactly when no such string
      exists, and otherwise begins and ends with non-whitespace. */
  lemma CleanHtmlText(f: seq<Node>)
    ensures CleanHtml(f) == GetText(StripDenylisted(f), "\n")
    ensures CleanHtml(f) == Join(Clean(VisibleTexts(Placed(f, []), TagSet(Denylist))), "\n")
    ensures CleanHtml(f) == [] <==> Clean(VisibleTexts(Placed(f, []), TagSet(Denylist))) == []
    ensures CleanHtml(f) != [] ==> Stripped(CleanHtml(f))
  {
    SweepPieces(StripDenylisted(f));
    StripDenylistedIsPrune(f);
    PrunedStrings(f, [], TagSet(Denylist));
    GetTextShape(StripDenylisted(f), "\n");
  }

  /** A page made only of denylisted elements yields no text. */
  lemma AllDenylistedIsEmpty(f: seq<Node>)
    requires forall i :: 0 <= i < |f| ==> f[i].Element? && f[i].tag in Denylist
    ensures CleanHtml(f) == []
  {
    CleanHtmlText(f);
    StripDenylistedIsPrune(f);
    AllDeniedPrunesToNothing(f, TagSet(Denylist));
    assert Pieces([]) == [];
  }

  lemma {:induction false} AllDeniedPrunesToNothing(f: seq<Node>, deny: set<string>)
    requires forall i :: 0 <= i < |f| ==> Denied(f[i], deny)
    ensures Prune(f, deny) == []
  {
    if f != [] {
      AllDeniedPrunesToNothing(f[1..], deny);
    }
  }
}
