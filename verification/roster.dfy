/**
 * Roster reconciliation: one user-change callback carries a join list, a
 * leave list and an update list, applied to the channel's user list in that
 * fixed order. Users are matched by `Key` (the display name), always against
 * the FIRST matching entry, as a list's `indexOf` does.
 */
module Roster {
  import opened ChatTypes

  /** The identities present in a user list. */
  function Keys(xs: seq<ChatUserInfo>): set<string>
  {
    if |xs| == 0 then {} else {Key(xs[0])} + Keys(xs[1..])
  }

  /** No identity occurs twice. */
  predicate UniqueKeys(xs: seq<ChatUserInfo>)
  {
    |xs| == 0 || (Key(xs[0]) !in Keys(xs[1..]) && UniqueKeys(xs[1..]))
  }

  /**
   * The index of the first entry with the same identity as `u`, or -1 when
   * there is none.
   */
  function IndexOf(xs: seq<ChatUserInfo>, u: ChatUserInfo): (r: int)
    ensures -1 <= r < |xs|
    ensures r == -1 <==> Key(u) !in Keys(xs)
    ensures r >= 0 ==> Key(xs[r]) == Key(u) && forall i :: 0 <= i < r ==> Key(xs[i]) != Key(u)
  {
    if |xs| == 0 then -1
    else if Key(xs[0]) == Key(u) then 0
    else
      var r := IndexOf(xs[1..], u);
      if r == -1 then -1 else r + 1
  }

  /**
   * Removing the first entry matching `u`, if any: the removed entry is the
   * one at the smallest index with `u`'s identity, and every other entry
   * stays, in order.
   */
  function RemoveUser(xs: seq<ChatUserInfo>, u: ChatUserInfo): (r: seq<ChatUserInfo>)
    ensures Key(u) !in Keys(xs) ==> r == xs
    ensures Key(u) in Keys(xs) ==> |r| == |xs| - 1
    ensures Key(u) in Keys(xs) ==>
      exists i :: 0 <= i < |xs| && Key(xs[i]) == Key(u) && Key(u) !in Keys(xs[..i])
                  && r == xs[..i] + xs[i + 1..]
    ensures Keys(xs) - {Key(u)} <= Keys(r) <= Keys(xs)
  {
    var i := IndexOf(xs, u);
    if i >= 0 then
      var r := xs[..i] + xs[i + 1..];
      NotInKeys(xs[..i], Key(u));
      KeysSplit(xs, i);
      KeysAppend(xs[..i], xs[i + 1..]);
      assert Key(xs[i]) == Key(u) && Key(u) !in Keys(xs[..i]) && r == xs[..i] + xs[i + 1..];
      r
    else
      xs
  }

  /**
   * Step 1: each leave entry removes the first entry with its identity. At
   * most one entry goes per leave entry, and only identities named in the
   * leave list can disappear.
   */
  function ApplyLeaves(xs: seq<ChatUserInfo>, leave: seq<ChatUserInfo>): (r: seq<ChatUserInfo>)
    ensures |xs| - |leave| <= |r| <= |xs|
    ensures Keys(xs) - Keys(leave) <= Keys(r) <= Keys(xs)
    decreases |leave|
  {
    if |leave| == 0 then xs else ApplyLeaves(RemoveUser(xs, leave[0]), leave[1..])
  }

  /**
   * Step 2: each update entry removes the first entry with its identity and
   * is then appended at the tail. Every updated identity is present
   * afterwards and no other identity appears.
   */
  function ApplyUpdates(xs: seq<ChatUserInfo>, upd: seq<ChatUserInfo>): (r: seq<ChatUserInfo>)
    ensures |xs| <= |r| <= |xs| + |upd|
    ensures Keys(r) == Keys(xs) + Keys(upd)
    decreases |upd|
  {
    if |upd| == 0 then xs
    else
      var ys := RemoveUser(xs, upd[0]);
      KeysAppend(ys, [upd[0]]);
      assert Keys([upd[0]]) == {Key(upd[0])};
      ApplyUpdates(ys + [upd[0]], upd[1..])
  }

  /**
   * The whole delta: leaves, then updates, then every join appended
   * unchecked. Whatever the roster holds, the join list ends the result, and
   * the identities present are the old ones, less at most the leaves, plus
   * the updates and the joins.
   */
  function ApplyDelta(xs: seq<ChatUserInfo>, join: seq<ChatUserInfo>, leave: seq<ChatUserInfo>,
                      upd: seq<ChatUserInfo>): (r: seq<ChatUserInfo>)
    ensures |r| >= |join| && r[|r| - |join|..] == join
    ensures (Keys(xs) - Keys(leave)) + Keys(upd) + Keys(join) <= Keys(r)
    ensures Keys(r) <= Keys(xs) + Keys(upd) + Keys(join)
  {
    var mid := ApplyUpdates(ApplyLeaves(xs, leave), upd);
    KeysAppend(mid, join);
    mid + join
  }

  /** The entries of `xs` whose identity is not in `ks`, in their order. */
  function Without(xs: seq<ChatUserInfo>, ks: set<string>): seq<ChatUserInfo>
  {
    if |xs| == 0 then []
    else (if Key(xs[0]) in ks then [] else [xs[0]]) + Without(xs[1..], ks)
  }

  // ---------------------------------------------------------------------
  // Facts about Keys, UniqueKeys and Without

  lemma {:induction false} KeysAppend(a: seq<ChatUserInfo>, b: seq<ChatUserInfo>)
    ensures Keys(a + b) == Keys(a) + Keys(b)
    decreases |a|
  {
    if |a| > 0 {
      assert (a + b)[1..] == a[1..] + b;
      KeysAppend(a[1..], b);
    } else {
      assert a + b == b;
    }
  }

  /** An identity that no entry carries is not among the identities. */
  lemma {:induction false} NotInKeys(xs: seq<ChatUserInfo>, k: string)
    requires forall j :: 0 <= j < |xs| ==> Key(xs[j]) != k
    ensures k !in Keys(xs)
    decreases |xs|
  {
    if |xs| > 0 {
      NotInKeys(xs[1..], k);
    }
  }

  /** The identities of a list, split around position `i`. */
  lemma KeysSplit(xs: seq<ChatUserInfo>, i: nat)
    requires i < |xs|
    ensures Keys(xs) == Keys(xs[..i]) + {Key(xs[i])} + Keys(xs[i + 1..])
  {
    assert xs == xs[..i] + xs[i..];
    KeysAppend(xs[..i], xs[i..]);
    assert xs[i..][1..] == xs[i + 1..];
  }

  lemma {:induction false} UniqueAppend(a: seq<ChatUserInfo>, b: seq<ChatUserInfo>)
    ensures UniqueKeys(a + b) <==> UniqueKeys(a) && UniqueKeys(b) && Keys(a) !! Keys(b)
    decreases |a|
  {
    if |a| > 0 {
      assert (a + b)[1..] == a[1..] + b;
      UniqueAppend(a[1..], b);
      KeysAppend(a[1..], b);
    } else {
      assert a + b == b;
    }
  }

  lemma {:induction false} WithoutAppend(a: seq<ChatUserInfo>, b: seq<ChatUserInfo>, ks: set<string>)
    ensures Without(a + b, ks) == Without(a, ks) + Without(b, ks)
    decreases |a|
  {
    if |a| > 0 {
      assert (a + b)[1..] == a[1..] + b;
      WithoutAppend(a[1..], b, ks);
    } else {
      assert a + b == b;
    }
  }

  lemma {:induction false} WithoutKeys(xs: seq<ChatUserInfo>, ks: set<string>)
    ensures Keys(Without(xs, ks)) == Keys(xs) - ks
    decreases |xs|
  {
    if |xs| > 0 {
      WithoutKeys(xs[1..], ks);
      var head := if Key(xs[0]) in ks then [] else [xs[0]];
      KeysAppend(head, Without(xs[1..], ks));
      assert Keys([xs[0]]) == {Key(xs[0])};
    }
  }

  lemma {:induction false} WithoutUnique(xs: seq<ChatUserInfo>, ks: set<string>)
    requires UniqueKeys(xs)
    ensures UniqueKeys(Without(xs, ks))
    decreases |xs|
  {
    if |xs| > 0 {
      WithoutUnique(xs[1..], ks);
      WithoutKeys(xs[1..], ks);
      var head := if Key(xs[0]) in ks then [] else [xs[0]];
      UniqueAppend(head, Without(xs[1..], ks));
      assert Keys([xs[0]]) == {Key(xs[0])};
    }
  }

  lemma {:induction false} WithoutNothing(xs: seq<ChatUserInfo>, ks: set<string>)
    requires Keys(xs) !! ks
    ensures Without(xs, ks) == xs
    decreases |xs|
  {
    if |xs| > 0 {
      WithoutNothing(xs[1..], ks);
    }
  }

  lemma {:induction false} WithoutEverything(xs: seq<ChatUserInfo>, ks: set<string>)
    requires Keys(xs) <= ks
    ensures Without(xs, ks) == []
    decreases |xs|
  {
    if |xs| > 0 {
      WithoutEverything(xs[1..], ks);
    }
  }

  lemma {:induction false} WithoutTwice(xs: seq<ChatUserInfo>, a: set<string>, b: set<string>)
    ensures Without(Without(xs, a), b) == Without(xs, a + b)
    decreases |xs|
  {
    if |xs| > 0 {
      WithoutTwice(xs[1..], a, b);
      var head := if Key(xs[0]) in a then [] else [xs[0]];
      WithoutAppend(head, Without(xs[1..], a), b);
    }
  }

  // ---------------------------------------------------------------------
  // What a delta does

  /** Removing a user whose identity is in `ks` does not disturb the others. */
  lemma RemoveUserUnmentioned(xs: seq<ChatUserInfo>, u: ChatUserInfo, ks: set<string>)
    requires Key(u) in ks
    ensures Without(RemoveUser(xs, u), ks) == Without(xs, ks)
  {
    var i := IndexOf(xs, u);
    if i >= 0 {
      assert xs == xs[..i] + [xs[i]] + xs[i + 1..];
      WithoutAppend(xs[..i] + [xs[i]], xs[i + 1..], ks);
      WithoutAppend(xs[..i], [xs[i]], ks);
      WithoutAppend(xs[..i], xs[i + 1..], ks);
    }
  }

  lemma {:induction false} LeavesUnmentioned(xs: seq<ChatUserInfo>, leave: seq<ChatUserInfo>, ks: set<string>)
    requires Keys(leave) <= ks
    ensures Without(ApplyLeaves(xs, leave), ks) == Without(xs, ks)
    decreases |leave|
  {
    if |leave| > 0 {
      RemoveUserUnmentioned(xs, leave[0], ks);
      LeavesUnmentioned(RemoveUser(xs, leave[0]), leave[1..], ks);
    }
  }

  lemma {:induction false} UpdatesUnmentioned(xs: seq<ChatUserInfo>, upd: seq<ChatUserInfo>, ks: set<string>)
    requires Keys(upd) <= ks
    ensures Without(ApplyUpdates(xs, upd), ks) == Without(xs, ks)
    decreases |upd|
  {
    if |upd| > 0 {
      var ys := RemoveUser(xs, upd[0]);
      RemoveUserUnmentioned(xs, upd[0], ks);
      WithoutAppend(ys, [upd[0]], ks);
      UpdatesUnmentioned(ys + [upd[0]], upd[1..], ks);
    }
  }

  /**
   * Users the delta does not mention all survive it, in the same relative
   * order; this holds whatever the roster contains, duplicates included.
   */
  lemma DeltaKeepsUnmentioned(xs: seq<ChatUserInfo>, join: seq<ChatUserInfo>, leave: seq<ChatUserInfo>,
                              upd: seq<ChatUserInfo>, ks: set<string>)
    requires Keys(join) + Keys(leave) + Keys(upd) <= ks
    ensures Without(ApplyDelta(xs, join, leave, upd), ks) == Without(xs, ks)
  {
    var mid := ApplyUpdates(ApplyLeaves(xs, leave), upd);
    UpdatesUnmentioned(ApplyLeaves(xs, leave), upd, ks);
    LeavesUnmentioned(xs, leave, ks);
    WithoutAppend(mid, join, ks);
    WithoutEverything(join, ks);
  }

  /** On a roster without duplicates, removing a user removes its identity. */
  lemma {:induction false} RemoveUserUnique(xs: seq<ChatUserInfo>, u: ChatUserInfo)
    requires UniqueKeys(xs)
    ensures RemoveUser(xs, u) == Without(xs, {Key(u)})
    decreases |xs|
  {
    if |xs| == 0 {
    } else if Key(xs[0]) == Key(u) {
      WithoutNothing(xs[1..], {Key(u)});
      assert RemoveUser(xs, u) == xs[1..];
    } else {
      var j := IndexOf(xs[1..], u);
      if j == -1 {
        WithoutNothing(xs, {Key(u)});
      } else {
        RemoveUserUnique(xs[1..], u);
        assert xs[..j + 1] + xs[j + 2..] == [xs[0]] + (xs[1..][..j] + xs[1..][j + 1..]);
      }
    }
  }

  /** On a roster without duplicates, the leave step removes every leave identity. */
  lemma {:induction false} LeavesClosedForm(xs: seq<ChatUserInfo>, leave: seq<ChatUserInfo>)
    requires UniqueKeys(xs)
    ensures ApplyLeaves(xs, leave) == Without(xs, Keys(leave))
    decreases |leave|
  {
    if |leave| == 0 {
      WithoutNothing(xs, {});
    } else {
      var k := Key(leave[0]);
      RemoveUserUnique(xs, leave[0]);
      WithoutUnique(xs, {k});
      LeavesClosedForm(Without(xs, {k}), leave[1..]);
      WithoutTwice(xs, {k}, Keys(leave[1..]));
    }
  }

  /** One update step on a duplicate-free roster: drop the identity, append the user. */
  lemma UpdateStepUnique(xs: seq<ChatUserInfo>, u: ChatUserInfo)
    requires UniqueKeys(xs)
    ensures RemoveUser(xs, u) + [u] == Without(xs, {Key(u)}) + [u]
    ensures UniqueKeys(Without(xs, {Key(u)}) + [u])
  {
    var w := Without(xs, {Key(u)});
    RemoveUserUnique(xs, u);
    WithoutUnique(xs, {Key(u)});
    WithoutKeys(xs, {Key(u)});
    assert Keys([u]) == {Key(u)};
    UniqueAppend(w, [u]);
  }

  lemma WithoutSingle(u: ChatUserInfo, ks: set<string>)
    requires Key(u) !in ks
    ensures Without([u], ks) == [u]
  {
    assert [u][1..] == [];
  }

  /** The first update step, restated on a duplicate-free roster. */
  lemma {:induction false} UpdatesUnfold(xs: seq<ChatUserInfo>, upd: seq<ChatUserInfo>)
    requires UniqueKeys(xs) && |upd| > 0
    ensures ApplyUpdates(xs, upd) == ApplyUpdates(Without(xs, {Key(upd[0])}) + [upd[0]], upd[1..])
  {
    UpdateStepUnique(xs, upd[0]);
  }

  /**
   * On a roster without duplicates and an update list without duplicates,
   * the update step moves every updated user, in update-list order, to the
   * tail, replacing the entry of the same identity.
   */
  lemma {:induction false} UpdatesClosedForm(xs: seq<ChatUserInfo>, upd: seq<ChatUserInfo>)
    requires UniqueKeys(xs) && UniqueKeys(upd)
    ensures ApplyUpdates(xs, upd) == Without(xs, Keys(upd)) + upd
    decreases |upd|
  {
    if |upd| == 0 {
      WithoutNothing(xs, {});
    } else {
      var u := upd[0];
      var rest := upd[1..];
      var ks := Keys(rest);
      var w := Without(xs, {Key(u)});
      var a := Without(xs, {Key(u)} + ks);
      assert Keys(upd) == {Key(u)} + ks;
      assert a == Without(xs, Keys(upd));
      UpdateStepUnique(xs, u);
      calc {
        ApplyUpdates(xs, upd);
        { UpdatesUnfold(xs, upd); }
        ApplyUpdates(w + [u], rest);
        { UpdatesClosedForm(w + [u], rest); }
        Without(w + [u], ks) + rest;
        { WithoutAppend(w, [u], ks); WithoutSingle(u, ks); }
        Without(w, ks) + [u] + rest;
        { WithoutTwice(xs, {Key(u)}, ks); }
        a + [u] + rest;
        { assert [u] + rest == upd; }
        a + upd;
      }
    }
  }

  /**
   * The roster law: on a roster without duplicate identities and an update
   * list without duplicates, the new roster is the old one minus every
   * leave and update identity (order kept), then the update list, then the
   * join list.
   */
  lemma {:induction false} DeltaClosedForm(xs: seq<ChatUserInfo>, join: seq<ChatUserInfo>, leave: seq<ChatUserInfo>,
                        upd: seq<ChatUserInfo>)
    requires UniqueKeys(xs) && UniqueKeys(upd)
    ensures ApplyDelta(xs, join, leave, upd) == Without(xs, Keys(leave) + Keys(upd)) + upd + join
  {
    LeavesClosedForm(xs, leave);
    WithoutUnique(xs, Keys(leave));
    UpdatesClosedForm(Without(xs, Keys(leave)), upd);
    WithoutTwice(xs, Keys(leave), Keys(upd));
  }

  /** `DeltaClosedForm` for a caller that does not know whether its inputs are duplicate-free. */
  lemma DeltaClosedFormWhenUnique(xs: seq<ChatUserInfo>, join: seq<ChatUserInfo>, leave: seq<ChatUserInfo>,
                                  upd: seq<ChatUserInfo>)
    ensures UniqueKeys(xs) && UniqueKeys(upd) ==>
      ApplyDelta(xs, join, leave, upd) == Without(xs, Keys(leave) + Keys(upd)) + upd + join
  {
    if UniqueKeys(xs) && UniqueKeys(upd) {
      DeltaClosedForm(xs, join, leave, upd);
    }
  }

  /**
   * On a roster holding one identity twice, a leave or an update takes the
   * FIRST of the two entries and keeps the second; the closed form of
   * `DeltaClosedForm`, which would drop both, does not hold here.
   */
  lemma DuplicateFirstMatch()
    ensures var a1, a2, a3 := ChatUserInfo("a", 1), ChatUserInfo("a", 2), ChatUserInfo("a", 3);
      && ApplyDelta([a1, a2], [], [a3], []) == [a2]
      && ApplyDelta([a1, a2], [], [], [a3]) == [a2, a3]
      && ApplyDelta([a1, a2], [], [a3], []) != Without([a1, a2], Keys([a3]))
  {
    var a1, a2, a3 := ChatUserInfo("a", 1), ChatUserInfo("a", 2), ChatUserInfo("a", 3);
    assert IndexOf([a1, a2], a3) == 0;
    assert [a1, a2][1..] == [a2];
    assert Keys([a3]) == {"a"};
    assert Without([a2], {"a"}) == [];
  }

  /**
   * The update step keeps a duplicate-free roster duplicate-free, whatever
   * the update list holds, repeated identities included.
   */
  lemma {:induction false} UpdatesKeepUnique(xs: seq<ChatUserInfo>, upd: seq<ChatUserInfo>)
    requires UniqueKeys(xs)
    ensures UniqueKeys(ApplyUpdates(xs, upd))
    decreases |upd|
  {
    if |upd| > 0 {
      UpdateStepUnique(xs, upd[0]);
      UpdatesKeepUnique(RemoveUser(xs, upd[0]) + [upd[0]], upd[1..]);
    }
  }

  /**
   * The roster stays free of duplicate identities exactly when the joins
   * are distinct and none of them is still present after the leave and
   * update steps; a repeated join is never rejected. The update list may
   * itself name one user twice.
   */
  lemma DeltaUniqueIff(xs: seq<ChatUserInfo>, join: seq<ChatUserInfo>, leave: seq<ChatUserInfo>,
                       upd: seq<ChatUserInfo>)
    requires UniqueKeys(xs)
    ensures UniqueKeys(ApplyDelta(xs, join, leave, upd))
        <==> UniqueKeys(join) && Keys(join) !! (Keys(xs) - Keys(leave)) + Keys(upd)
  {
    var left := ApplyLeaves(xs, leave);
    var mid := ApplyUpdates(left, upd);
    LeavesClosedForm(xs, leave);
    WithoutUnique(xs, Keys(leave));
    WithoutKeys(xs, Keys(leave));
    UpdatesKeepUnique(left, upd);
    assert Keys(mid) == (Keys(xs) - Keys(leave)) + Keys(upd);
    UniqueAppend(mid, join);
  }
}
