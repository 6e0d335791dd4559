/** Permission codes and which actions they cover: splitCode, actionCovers and expandCoveredCodes of
    internal/service/rbac_service.go. */
module Coverage {
  import opened Text

  const MANAGE := ":manage"
  const READ := ":read"

  /** splitCode: the resource and the action of a code, both empty when it does not split. */
  function SplitCode(code: string): (string, string) {
    var c := TrimSpace(code);
    if HasPrefix(c, "env:template:") then ("env_template", c[13..])
    else
      var i := IndexOf(c, ':');
      if i == 0 || i + 1 >= |c| then ("", "") else (c[..i], c[i + 1..])
  }

  function ActionOf(code: string): string { SplitCode(code).1 }

  predicate ActionCovers(parent: string, child: string) {
    var p, c := TrimSpace(parent), TrimSpace(child);
    && p != ""
    && (|| p == c
        || (p == "update" && c == "read")
        || (HasSuffix(p, MANAGE) && HasSuffix(c, READ) && TrimSuffix(p, MANAGE) == TrimSuffix(c, READ)))
  }

  /** The action that managing the same thing also allows. */
  function ReadOf(action: string): string
    requires HasSuffix(action, MANAGE)
  {
    TrimSuffix(action, MANAGE) + READ
  }

  /** The non-empty actions of the codes. */
  function ActionsOf(codes: seq<string>): set<string> {
    set k | 0 <= k < |codes| && ActionOf(codes[k]) != "" :: ActionOf(codes[k])
  }

  function Expanded(actions: set<string>): set<string> {
    actions + (if "update" in actions then {"read"} else {}) + Reads(Manages(actions))
  }

  function Manages(actions: set<string>): set<string> {
    set a | a in actions && HasSuffix(a, MANAGE)
  }

  function Reads(manages: set<string>): set<string>
    requires forall a :: a in manages ==> HasSuffix(a, MANAGE)
  {
    set a | a in manages :: ReadOf(a)
  }

  lemma {:induction false} ReadIsNotManage(action: string)
    requires HasSuffix(action, READ)
    ensures !HasSuffix(action, MANAGE)
  {
    assert action[|action| - 5..][4] == READ[4];
  }

  lemma {:induction false} ReadOfEndsInRead(action: string)
    requires HasSuffix(action, MANAGE)
    ensures HasSuffix(ReadOf(action), READ) && TrimSuffix(ReadOf(action), READ) == TrimSuffix(action, MANAGE)
  {
    var prefix := TrimSuffix(action, MANAGE);
    assert (prefix + READ)[|prefix|..] == READ;
    assert (prefix + READ)[..|prefix|] == prefix;
  }

  /** A code of the standard form: what comes before the first colon, and what comes after it. */
  lemma {:induction false} StandardCode(resource: string, action: string)
    requires resource != "" && action != "" && ':' !in resource && Trimmed(resource + ":" + action)
    requires !HasPrefix(resource + ":" + action, "env:template:")
    ensures SplitCode(resource + ":" + action) == (resource, action) && ActionOf(resource + ":" + action) == action
  {
    var code := resource + ":" + action;
    TrimmedStays(code);
    assert code[|resource|] == ':' && forall j :: 0 <= j < |resource| ==> code[j] == resource[j];
    assert IndexOf(code, ':') == |resource|;
    assert code[..|resource|] == resource && code[|resource| + 1..] == action;
  }

  /** A code of the template form keeps all of its third part as the action. */
  lemma {:induction false} TemplateCode(action: string)
    requires Trimmed("env:template:" + action)
    ensures SplitCode("env:template:" + action) == ("env_template", action) && ActionOf("env:template:" + action) == action
  {
    var code := "env:template:" + action;
    TrimmedStays(code);
    assert code[..13] == "env:template:" && code[13..] == action;
  }

  /** What does not split has no action: no colon, nothing before the first one, or nothing after it. Blanks around a
      code do not matter. */
  lemma {:induction false} UnsplitCode(code: string)
    ensures SplitCode(code) == SplitCode(TrimSpace(code))
    ensures ':' !in TrimSpace(code) ==> ActionOf(code) == ""
    ensures TrimSpace(code) != "" && TrimSpace(code)[0] == ':' ==> SplitCode(code) == ("", "")
    ensures forall resource :: ':' !in resource && TrimSpace(code) == resource + ":" ==> ActionOf(code) == ""
  {
    var c := TrimSpace(code);
    TrimSpaceTrims(code);
    assert "env:template:"[3] == ':' && "env:template:"[0] == 'e';
    if HasPrefix(c, "env:template:") { assert c[3] == ':'; }
    forall resource | ':' !in resource && c == resource + ":"
      ensures ActionOf(code) == ""
    {
      assert c[|resource|] == ':' && forall j :: 0 <= j < |resource| ==> c[j] == resource[j];
      assert IndexOf(c, ':') == |resource|;
    }
  }

  /** The last loop of expandCoveredCodes. Go ranges over the map in any order, and an entry added during the
      loop may or may not be visited; the result is the same set whatever happens. */
  method AddReads(start: set<string>) returns (covered: set<string>)
    ensures covered == start + Reads(Manages(start))
  {
    covered := start;
    var rest := start;
    while rest != {}
      invariant Manages(rest) <= start
      invariant covered == start + Reads(Manages(start) - rest)
      decreases Manages(rest), rest
    {
      var action :| action in rest;
      ghost var before := rest;
      rest := rest - {action};
      if HasSuffix(action, MANAGE) {
        ReadOfEndsInRead(action);
        ReadIsNotManage(ReadOf(action));
        if ReadOf(action) !in covered {
          if * { rest := rest + {ReadOf(action)}; }
        }
        covered := covered + {ReadOf(action)};
        assert action in Manages(before) && action !in Manages(rest) && Manages(rest) <= Manages(before);
        assert Manages(start) - rest == (Manages(start) - before) + {action};
      } else {
        assert Manages(rest) == Manages(before);
        assert Manages(start) - rest == Manages(start) - before;
      }
    }
  }

  /** Exactly three things are covered: an action of an owned code itself, reading for one that updates, and reading a
      thing for one that manages it. */
  method ExpandCoveredCodes(owned: seq<string>) returns (covered: set<string>)
    ensures covered == Expanded(ActionsOf(owned))
    ensures forall child :: child in covered <==>
      || (child != "" && exists k :: 0 <= k < |owned| && ActionOf(owned[k]) == child)
      || (child == "read" && exists k :: 0 <= k < |owned| && ActionOf(owned[k]) == "update")
      || (|child| >= 5 && child[|child| - 5..] == ":read"
          && exists k :: 0 <= k < |owned| && ActionOf(owned[k]) == child[..|child| - 5] + ":manage")
  {
    covered := CollectCovered(owned);
    forall child
      ensures child in covered <==>
        || (child != "" && exists k :: 0 <= k < |owned| && ActionOf(owned[k]) == child)
        || (child == "read" && exists k :: 0 <= k < |owned| && ActionOf(owned[k]) == "update")
        || (|child| >= 5 && child[|child| - 5..] == ":read"
            && exists k :: 0 <= k < |owned| && ActionOf(owned[k]) == child[..|child| - 5] + ":manage")
    {
      ExpansionRule(owned, child);
    }
  }

  method CollectCovered(owned: seq<string>) returns (covered: set<string>)
    ensures covered == Expanded(ActionsOf(owned))
  {
    var actions: set<string> := {};
    for k := 0 to |owned|
      invariant actions == ActionsOf(owned[..k])
    {
      ActionsOfSnoc(owned[..k], owned[k]);
      assert owned[..k + 1] == owned[..k] + [owned[k]];
      var action := ActionOf(owned[k]);
      if action == "" { continue; }
      actions := actions + {action};
    }
    assert owned[..|owned|] == owned;
    covered := actions;
    if "update" in covered {
      covered := covered + {"read"};
    }
    assert Manages(covered) == Manages(actions);
    covered := AddReads(covered);
  }

  lemma {:induction false} ActionIn(owned: seq<string>, action: string)
    ensures action in ActionsOf(owned) <==> action != "" && exists k :: 0 <= k < |owned| && ActionOf(owned[k]) == action
  {
  }

  lemma {:induction false} ExpansionRule(owned: seq<string>, child: string)
    ensures child in Expanded(ActionsOf(owned)) <==>
      || (child != "" && exists k :: 0 <= k < |owned| && ActionOf(owned[k]) == child)
      || (child == "read" && exists k :: 0 <= k < |owned| && ActionOf(owned[k]) == "update")
      || (|child| >= 5 && child[|child| - 5..] == ":read"
          && exists k :: 0 <= k < |owned| && ActionOf(owned[k]) == child[..|child| - 5] + ":manage")
  {
    ExpandedRule(ActionsOf(owned), child);
    ActionIn(owned, child);
    ActionIn(owned, "update");
    if |child| >= 5 { ActionIn(owned, child[..|child| - 5] + ":manage"); }
  }

  /** The rule of the expansion, spelled out. */
  lemma {:induction false} ExpandedRule(actions: set<string>, child: string)
    ensures child in Expanded(actions) <==>
      || child in actions
      || (child == "read" && "update" in actions)
      || (|child| >= 5 && child[|child| - 5..] == ":read" && child[..|child| - 5] + ":manage" in actions)
  {
    if |child| >= 5 && child[|child| - 5..] == ":read" && child[..|child| - 5] + ":manage" in actions {
      var p := child[..|child| - 5];
      var a := p + ":manage";
      assert a[|p|..] == ":manage" && a[..|p|] == p;
      assert HasSuffix(a, MANAGE) && ReadOf(a) == p + ":read" && child == p + ":read";
      assert a in Manages(actions);
    }
    if child in Reads(Manages(actions)) {
      var a :| a in actions && HasSuffix(a, MANAGE) && ReadOf(a) == child;
      var p := TrimSuffix(a, MANAGE);
      assert a == p + ":manage" && child == p + ":read";
      assert child[..|child| - 5] == p && child[|child| - 5..] == ":read";
    }
  }

  /** The pairwise rule, spelled out: blanks around both actions do not matter. */
  lemma {:induction false} CoversRule(parent: string, child: string)
    ensures var p, c := TrimSpace(parent), TrimSpace(child);
            ActionCovers(parent, child) <==>
            p != "" && (|| p == c
                        || (p == "update" && c == "read")
                        || (|c| >= 5 && c[|c| - 5..] == ":read" && p == c[..|c| - 5] + ":manage"))
  {
    var p, c := TrimSpace(parent), TrimSpace(child);
    if HasSuffix(p, MANAGE) && HasSuffix(c, READ) && TrimSuffix(p, MANAGE) == TrimSuffix(c, READ) {
      assert p == TrimSuffix(p, MANAGE) + ":manage" && c == TrimSuffix(c, READ) + ":read";
    }
    if |c| >= 5 && c[|c| - 5..] == ":read" && p == c[..|c| - 5] + ":manage" {
      assert p[|p| - 7..] == ":manage" && p[..|p| - 7] == c[..|c| - 5];
    }
  }

  lemma {:induction false} ActionsOfSnoc(codes: seq<string>, last: string)
    ensures ActionsOf(codes + [last]) == ActionsOf(codes) + (if ActionOf(last) == "" then {} else {ActionOf(last)})
  {
    var all := codes + [last];
    forall a | a in ActionsOf(codes)
      ensures a in ActionsOf(all)
    {
      var k :| 0 <= k < |codes| && ActionOf(codes[k]) == a;
      assert all[k] == codes[k];
    }
    assert all[|codes|] == last;
  }

  /** Trimming loses nothing of a trimmed action. */
  lemma {:induction false} CoversTrimmed(parent: string, child: string)
    requires Trimmed(parent) && Trimmed(child)
    ensures ActionCovers(parent, child) <==> parent != "" && child in Expanded({parent})
  {
    TrimmedStays(parent);
    TrimmedStays(child);
    CoversRule(parent, child);
    ExpandedRule({parent}, child);
  }

  /** The expansion of trimmed actions holds exactly the trimmed actions that some owned action covers pairwise. */
  lemma {:induction false} ExpandedIsPairwise(actions: set<string>, child: string)
    requires "" !in actions && (forall a :: a in actions ==> Trimmed(a)) && Trimmed(child)
    ensures child in Expanded(actions) <==> exists a :: a in actions && ActionCovers(a, child)
  {
    forall a | a in actions
      ensures ActionCovers(a, child) <==> child in Expanded({a})
    {
      CoversTrimmed(a, child);
    }
    if child in Expanded(actions) {
      if child in actions {
        assert child in Expanded({child});
      } else if child == "read" && "update" in actions {
        assert child in Expanded({"update"});
      } else {
        var a :| a in actions && HasSuffix(a, MANAGE) && child == ReadOf(a);
        assert a in {a} && child in Expanded({a});
      }
    }
  }

  /** The two rules decide alike on every trimmed action. */
  ghost predicate AgreeOnTrimmed(actions: set<string>) {
    forall child :: Trimmed(child) ==> (child in Expanded(actions) <==> PairwiseCovered(actions, child))
  }

  ghost predicate PairwiseCovered(actions: set<string>, child: string) {
    exists a :: a in actions && ActionCovers(a, child)
  }

  function TrimmedForms(actions: set<string>): set<string> {
    set a | a in actions && TrimSpace(a) != "" :: TrimSpace(a)
  }

  /** The pairwise rule trims what it compares, so it is the expansion of the trimmed forms. */
  lemma {:induction false} PairwiseTrims(actions: set<string>, child: string)
    requires Trimmed(child)
    ensures PairwiseCovered(actions, child) <==> child in Expanded(TrimmedForms(actions))
  {
    var forms := TrimmedForms(actions);
    forall a | a in actions
      ensures TrimSpace(a) != "" ==> (ActionCovers(a, child) <==> ActionCovers(TrimSpace(a), child))
    {
      TrimSpaceTrims(a);
    }
    forall f | f in forms
      ensures Trimmed(f)
    {
      var a :| a in actions && TrimSpace(a) == f;
      TrimSpaceTrims(a);
    }
    ExpandedIsPairwise(forms, child);
    if f :| f in forms && ActionCovers(f, child) {
      var a :| a in actions && TrimSpace(a) != "" && TrimSpace(a) == f;
    }
  }

  lemma {:induction false} ExpandedHasTrimmed(actions: set<string>, child: string)
    requires "" !in actions && Trimmed(child) && child in Expanded(actions)
    ensures child in Expanded(TrimmedForms(actions))
  {
    var forms := TrimmedForms(actions);
    if child in actions {
      TrimmedStays(child);
      assert child in forms;
    } else if child == "read" && "update" in actions {
      TrimmedStays("update");
      assert "update" in forms;
    } else {
      var a :| a in actions && HasSuffix(a, MANAGE) && child == ReadOf(a);
      ManagesTrimmed(a);
      TrimmedStays(a);
      assert a in forms && a in Manages(forms);
    }
  }

  lemma {:induction false} ManagesTrimmed(a: string)
    requires HasSuffix(a, MANAGE) && Trimmed(ReadOf(a))
    ensures Trimmed(a)
  {
    var prefix := TrimSuffix(a, MANAGE);
    assert a == prefix + MANAGE && ReadOf(a) == prefix + READ;
    assert ReadOf(a)[0] == a[0] by {
      if prefix == "" { assert READ[0] == MANAGE[0]; }
    }
    assert a[|a| - 1] == MANAGE[6] == 'e';
  }

  /** The expansion, which does not trim, decides like the pairwise rule on every trimmed action if and only if the
      trimmed form of each owned action is among the expanded ones. */
  lemma {:induction false} AgreeIffTrimmedFormsOwned(actions: set<string>)
    requires "" !in actions
    ensures AgreeOnTrimmed(actions) <==> TrimmedForms(actions) <= Expanded(actions)
  {
    var forms := TrimmedForms(actions);
    if AgreeOnTrimmed(actions) {
      forall f | f in forms
        ensures f in Expanded(actions)
      {
        var a :| a in actions && TrimSpace(a) == f;
        TrimSpaceTrims(a);
        assert ActionCovers(a, f);
        assert PairwiseCovered(actions, f);
      }
    }
    if forms <= Expanded(actions) {
      ExpandedMonotone(forms, Expanded(actions));
      ExpandedIdempotent(actions);
      forall child | Trimmed(child)
        ensures child in Expanded(actions) <==> PairwiseCovered(actions, child)
      {
        PairwiseTrims(actions, child);
        if child in Expanded(actions) { ExpandedHasTrimmed(actions, child); }
      }
    }
  }

  /** A code whose action starts with a blank, on which they differ. */
  lemma {:induction false} UntrimmedDiffers()
    ensures ActionsOf(["o: a"]) == {" a"} && !AgreeOnTrimmed(ActionsOf(["o: a"]))
  {
    UntrimmedAction();
    assert ["o: a"][0] == "o: a";
    assert ActionsOf(["o: a"]) == {" a"};
    assert TrimLeft(" a") == "a" by { assert " a"[1..] == "a"; }
    TrimmedStays("a");
    assert !HasSuffix(" a", MANAGE);
    assert "a" in TrimmedForms({" a"}) && "a" !in Expanded({" a"});
    AgreeIffTrimmedFormsOwned({" a"});
  }

  lemma {:induction false} UntrimmedAction()
    ensures ActionOf("o: a") == " a"
  {
    var code := "o: a";
    TrimmedStays(code);
    assert code[1] == ':' && IndexOf(code, ':') == 1;
    assert code[2..] == " a";
  }

  // ---- the laws ----

  lemma {:induction false} ExpandedMonotone(fewer: set<string>, more: set<string>)
    requires fewer <= more
    ensures Expanded(fewer) <= Expanded(more)
  {
  }

  lemma {:induction false} ExpandedUnion(a: set<string>, b: set<string>)
    ensures Expanded(a + b) == Expanded(a) + Expanded(b)
  {
  }

  lemma {:induction false} ExpandedIdempotent(actions: set<string>)
    ensures actions <= Expanded(actions)
    ensures Expanded(Expanded(actions)) == Expanded(actions)
  {
    var once := Expanded(actions);
    forall a | a in once && HasSuffix(a, MANAGE)
      ensures ReadOf(a) in once
    {
      if a !in actions {
        if a != "read" {
          var b :| b in actions && HasSuffix(b, MANAGE) && a == ReadOf(b);
          ReadOfEndsInRead(b);
          ReadIsNotManage(a);
        }
      }
    }
    assert "update" in once ==> "update" in actions by {
      assert "update" != "read";
      forall b | b in actions && HasSuffix(b, MANAGE)
        ensures ReadOf(b) != "update"
      {
        ReadOfEndsInRead(b);
        assert !HasSuffix("update", READ);
      }
    }
  }
}
