/** Applying a reported difference: changes addressed by pointer texts, as the report holds them. */
module DiffReplay {
  import opened Wrappers
  import opened Json
  import opened Strings
  import opened JsonPointer
  import opened StructuralDiff

  /** The tokens that a pointer text names. */
  function PointerTokens(pointer: string): seq<string> {
    if pointer == "" then [] else Unescaped(Split(pointer[1..], '/'))
  }

  /** The same change, addressed by tokens. */
  function Located(c: Change<string>): Change<seq<string>> {
    match c
    case Add(path, after) => Add(PointerTokens(path), after)
    case Remove(path, before) => Remove(PointerTokens(path), before)
    case Replace(path, before, after) => Replace(PointerTokens(path), before, after)
  }

  function AllLocated(changes: seq<Change<string>>): seq<Change<seq<string>>> {
    seq(|changes|, i requires 0 <= i < |changes| => Located(changes[i]))
  }

  /** Applies pointer-addressed changes one after another; `None` if one does not fit. */
  function ApplyReport(document: Json, changes: seq<Change<string>>): Option<Json> {
    ApplyAll(document, AllLocated(changes))
  }

  lemma RenderedLocates(c: Change<seq<string>>)
    requires c.path != []
    ensures Located(RenderedChange("", c)) == c
  {
    RenderSplits(c.path);
    UnescapedEscaped(c.path);
    assert "" + Render(c.path) == Render(c.path);
  }

  /** The pointer texts of a report locate the token-level difference. */
  lemma ReportLocates(before: Json, after: Json)
    requires SameKind(before, after)
    ensures AllLocated(DiffValues(before, after, "")) == TokenDiff(before, after)
  {
    var changes := TokenDiff(before, after);
    DiffValuesRenders(before, after, "");
    DiffTokensStart(before, after, TokensOf(before, after));
    forall i | 0 <= i < |changes| ensures AllLocated(DiffValues(before, after, ""))[i] == changes[i] {
      assert changes == DiffTokens(before, after, TokensOf(before, after));
      RenderedLocates(changes[i]);
    }
  }

  lemma {:induction false} ForwardLocates(changes: seq<Change<string>>)
    ensures AllLocated(Forward(changes)) == Forward(AllLocated(changes))
  {
    if changes != [] {
      ForwardLocates(changes[1..]);
      assert AllLocated(changes)[1..] == AllLocated(changes[1..]);
    }
  }

  lemma {:induction false} BackwardLocates(changes: seq<Change<string>>)
    ensures AllLocated(Backward(changes)) == Backward(AllLocated(changes))
  {
    if changes != [] {
      BackwardLocates(changes[1..]);
      assert AllLocated(changes)[1..] == AllLocated(changes[1..]);
    }
  }

  /**
   Replaying the report on `before` reconstructs `after`: additions and replacements as reported, then
   the removals from the end.
   */
  lemma ReplayReconstructs(before: Json, after: Json)
    requires SameKind(before, after)
    ensures var report := DiffValues(before, after, "");
            ApplyReport(before, Forward(report) + Backward(report)) == Some(after)
  {
    var report := DiffValues(before, after, "");
    ReportLocates(before, after);
    ForwardLocates(report);
    BackwardLocates(report);
    assert AllLocated(Forward(report) + Backward(report)) == AllLocated(Forward(report)) + AllLocated(Backward(report));
    TokenReplayReconstructs(before, after);
  }

  /**
   Applied one after another as reported, the changes reconstruct `after` exactly if no list loses more
   than one element; with two losses the first removal has already moved the second element.
   */
  lemma ReportOrderReplaysIff(before: Json, after: Json)
    requires SameKind(before, after)
    ensures ApplyReport(before, DiffValues(before, after, "")) == Some(after) <==> ShrinksGently(before, after)
  {
    ReportLocates(before, after);
    TokenOrderReplaysIff(before, after);
  }

  /** A report that fails in its own order: both elements of a list are removed, the first one first. */
  lemma TwoLossesFailInOrder()
    ensures var before, after := List([Num(1.0), Num(2.0)]), List([]);
            && DiffValues(before, after, "") == [Remove("/0", Num(1.0)), Remove("/1", Num(2.0))]
            && ApplyReport(before, DiffValues(before, after, "")) != Some(after)
  {
    var before, after := List([Num(1.0), Num(2.0)]), List([]);
    var first, second := Remove("/0", Num(1.0)), Remove("/1", Num(2.0));
    assert DiffItems(before, after, 2, "") == [];
    assert ItemReport(before, after, 1, "") == [second] by {
      assert "" + "/" + Decimal(1) == "/1";
    }
    assert ItemReport(before, after, 0, "") == [first] by {
      assert "" + "/" + Decimal(0) == "/0";
    }
    assert DiffItems(before, after, 0, "") == [first] + ([second] + []);
    ReportOrderReplaysIff(before, after);
  }
}
