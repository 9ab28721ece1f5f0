/**
 * The pure part of the task item (components/tasks/TaskItem.tsx): the
 * progress percentage derived from a task's activities, and the three
 * rewrites of the activity sequence that the handlers send to the store as
 * a whole-array replacement.
 */
module Activities {
  import opened Wrappers
  import opened Text

  /** A sub-item of a task. Ids come from the store's id generator and are not assumed unique. */
  datatype Activity = Activity(id: string, name: string, completed: bool)

  /** `task.activities || []`: a stored task may lack the field. */
  function OrEmpty(acts: Option<seq<Activity>>): (s: seq<Activity>)
    ensures acts.Some? ==> s == acts.value
    ensures acts.None? ==> s == []
  {
    if acts.Some? then acts.value else []
  }

  // ---------------------------------------------------------------------------
  // Progress
  // ---------------------------------------------------------------------------

  /** Every activity in `s` is completed. */
  predicate AllCompleted(s: seq<Activity>)
  {
    forall i :: 0 <= i < |s| ==> s[i].completed
  }

  /** `s.filter(act => act.completed).length` */
  function CompletedCount(s: seq<Activity>): (c: nat)
    ensures c <= |s|
    ensures c == |s| <==> AllCompleted(s)
  {
    if s == [] then 0
    else
      var rest := CompletedCount(s[1..]);
      assert AllCompleted(s) <==> s[0].completed && AllCompleted(s[1..]) by {
        if s[0].completed && AllCompleted(s[1..]) {
          forall i | 0 <= i < |s| ensures s[i].completed {
            if i > 0 { assert s[i] == s[1..][i - 1]; }
          }
        }
      }
      (if s[0].completed then 1 else 0) + rest
  }

  /**
   * `Math.round(completed / total * 100)` with the floating-point division
   * replaced by exact rational arithmetic: the integer nearest to
   * 100 * c / n, halves rounded up.
   */
  function RoundedPercent(c: nat, n: nat): (p: nat)
    requires 0 < n && c <= n
    ensures 2 * n * p <= 200 * c + n < 2 * n * (p + 1)
    ensures p <= 100
  {
    var p := (200 * c + n) / (2 * n);
    DivBounds(200 * c + n, 2 * n);
    assert p <= 100 by {
      if p > 100 {
        MulMonotone(2 * n, 101, p);
        assert false;
      }
    }
    p
  }

  /** The quotient `a / d` is pinned between consecutive multiples of `d`. */
  lemma DivBounds(a: nat, d: nat)
    requires 0 < d
    ensures d * (a / d) <= a < d * (a / d + 1)
  {
  }

  lemma MulMonotone(k: nat, x: nat, y: nat)
    requires x <= y
    ensures k * x <= k * y
  {
  }

  /** The `progress` memo: 0 without activities, otherwise the rounded completed share. */
  function Progress(acts: Option<seq<Activity>>): (p: nat)
    ensures p <= 100
    ensures acts.None? || acts.value == [] ==> p == 0
    ensures acts.Some? && acts.value != [] ==>
              var n, c := |acts.value|, CompletedCount(acts.value);
              2 * n * p <= 200 * c + n < 2 * n * (p + 1)
  {
    if acts.None? || |acts.value| == 0 then 0
    else RoundedPercent(CompletedCount(acts.value), |acts.value|)
  }

  /** The rounded percentage is monotone in the completed count. */
  lemma RoundedPercentMonotone(c: nat, d: nat, n: nat)
    requires 0 < n && c <= d <= n
    ensures RoundedPercent(c, n) <= RoundedPercent(d, n)
  {
    var p, q := RoundedPercent(c, n), RoundedPercent(d, n);
    if q < p {
      MulMonotone(2 * n, q + 1, p);
      assert false;
    }
  }

  /** Progress is 100 exactly when at most one activity in 200 is still open. */
  lemma ProgressFull(s: seq<Activity>)
    requires s != []
    ensures Progress(Some(s)) == 100 <==> 200 * (|s| - CompletedCount(s)) <= |s|
  {
    var n, c, p := |s|, CompletedCount(s), Progress(Some(s));
    if p == 100 {
      assert 200 * n <= 200 * c + n;
    } else {
      assert p < 100;
      MulMonotone(2 * n, p + 1, 100);
    }
  }

  /** Progress is 0 exactly when fewer than one activity in 200 is completed. */
  lemma ProgressZero(s: seq<Activity>)
    requires s != []
    ensures Progress(Some(s)) == 0 <==> 200 * CompletedCount(s) < |s|
  {
    RoundedPercentZero(CompletedCount(s), |s|);
  }

  lemma RoundedPercentZero(c: nat, n: nat)
    requires 0 < n && c <= n
    ensures RoundedPercent(c, n) == 0 <==> 200 * c < n
  {
    var p := RoundedPercent(c, n);
    if p == 0 {
      assert 2 * n * (p + 1) == 2 * n;
    } else {
      MulMonotone(2 * n, 1, p);
    }
  }

  /** A task whose every activity is completed shows 100. */
  lemma ProgressAllCompleted(s: seq<Activity>)
    requires s != [] && AllCompleted(s)
    ensures Progress(Some(s)) == 100
  {
    ProgressFull(s);
  }

  /** With fewer than 200 activities, 100 is shown only when every activity is completed. */
  lemma ProgressFullOnlyWhenAllCompleted(s: seq<Activity>)
    requires 0 < |s| < 200 && Progress(Some(s)) == 100
    ensures AllCompleted(s)
  {
    ProgressFull(s);
  }

  /**
   * From 200 activities on, rounding shows 100 while one activity is still
   * open, so "100 exactly when all are completed" needs the bound above.
   */
  lemma ProgressFullWithOneOpen(s: seq<Activity>)
    requires |s| >= 200 && CompletedCount(s) == |s| - 1
    ensures Progress(Some(s)) == 100 && !AllCompleted(s)
  {
    ProgressFull(s);
  }

  // ---------------------------------------------------------------------------
  // The three rewrites
  // ---------------------------------------------------------------------------

  /** The ids of `s`, in order. */
  function Ids(s: seq<Activity>): (ids: seq<string>)
    ensures |ids| == |s|
    ensures forall i :: 0 <= i < |s| ==> ids[i] == s[i].id
  {
    if s == [] then [] else [s[0].id] + Ids(s[1..])
  }

  /** The activity built by `handleAddActivity` from the draft name and a freshly generated id. */
  function NewActivity(id: string, draft: string): (a: Activity)
    ensures a.id == id && !a.completed
    ensures a.name == Trim(draft) && IsTrimmed(a.name)
    ensures !IsBlank(draft) ==> a.name != []
  {
    Activity(id, Trim(draft), false)
  }

  /** `[...(task.activities || []), newActivity]` */
  function AppendActivity(s: seq<Activity>, a: Activity): (r: seq<Activity>)
    ensures |r| == |s| + 1
    ensures r[..|s|] == s && r[|s|] == a
  {
    s + [a]
  }

  /** `activities.map(act => act.id === id ? { ...act, completed } : act)` */
  function SetCompleted(s: seq<Activity>, id: string, completed: bool): (r: seq<Activity>)
    ensures |r| == |s|
    ensures forall i :: 0 <= i < |s| ==>
              r[i].id == s[i].id && r[i].name == s[i].name &&
              r[i].completed == (if s[i].id == id then completed else s[i].completed)
  {
    if s == [] then []
    else
      var a := if s[0].id == id then s[0].(completed := completed) else s[0];
      [a] + SetCompleted(s[1..], id, completed)
  }

  /** `activities.filter(act => act.id !== id)` */
  function RemoveActivity(s: seq<Activity>, id: string): (r: seq<Activity>)
    ensures |r| <= |s|
    ensures forall a :: a in r ==> a in s && a.id != id
    ensures forall a :: a in s && a.id != id ==> a in r
  {
    if s == [] then []
    else if s[0].id == id then RemoveActivity(s[1..], id)
    else
      var rest := RemoveActivity(s[1..], id);
      assert forall a :: a in s && a.id != id && a != s[0] ==> a in s[1..];
      [s[0]] + rest
  }

  /** `r` is `s` with some elements dropped and the rest in their original order. */
  predicate IsSubsequence(r: seq<Activity>, s: seq<Activity>)
    decreases |s|
  {
    if r == [] then true
    else if s == [] then false
    else if r[0] == s[0] then IsSubsequence(r[1..], s[1..])
    else IsSubsequence(r, s[1..])
  }

  /** Number of activities in `s` carrying `id`. */
  function CountId(s: seq<Activity>, id: string): (k: nat)
    ensures k <= |s|
    ensures k == 0 <==> id !in Ids(s)
  {
    if s == [] then 0
    else (if s[0].id == id then 1 else 0) + CountId(s[1..], id)
  }

  // ---------------------------------------------------------------------------
  // Lemmas about the rewrites
  // ---------------------------------------------------------------------------

  /** Setting `completed` never changes the ids or their order. */
  lemma {:induction false} SetCompletedKeepsIds(s: seq<Activity>, id: string, completed: bool)
    ensures Ids(SetCompleted(s, id, completed)) == Ids(s)
  {
    var r := SetCompleted(s, id, completed);
    assert forall i :: 0 <= i < |s| ==> Ids(r)[i] == Ids(s)[i];
  }

  /** When no activity carries the id, the rewritten sequence equals the input. */
  lemma SetCompletedNoMatch(s: seq<Activity>, id: string, completed: bool)
    requires id !in Ids(s)
    ensures SetCompleted(s, id, completed) == s
  {
    var r := SetCompleted(s, id, completed);
    forall i | 0 <= i < |s| ensures r[i] == s[i] {
      assert Ids(s)[i] == s[i].id;
    }
  }

  /** Sending the same toggle twice has the effect of sending it once. */
  lemma SetCompletedIdempotent(s: seq<Activity>, id: string, completed: bool)
    ensures SetCompleted(SetCompleted(s, id, completed), id, completed) == SetCompleted(s, id, completed)
  {
  }

  /** The completed count splits over concatenation. */
  lemma {:induction false} CompletedCountConcat(s: seq<Activity>, t: seq<Activity>)
    ensures CompletedCount(s + t) == CompletedCount(s) + CompletedCount(t)
  {
    if s == [] {
      assert s + t == t;
    } else {
      assert (s + t)[1..] == s[1..] + t;
      CompletedCountConcat(s[1..], t);
    }
  }

  /** Marking activities as completed never lowers the completed count. */
  lemma {:induction false} SetCompletedCountUp(s: seq<Activity>, id: string)
    ensures CompletedCount(s) <= CompletedCount(SetCompleted(s, id, true))
  {
    if s != [] {
      var r := SetCompleted(s, id, true);
      assert r[1..] == SetCompleted(s[1..], id, true);
      SetCompletedCountUp(s[1..], id);
    }
  }

  /** Marking activities as not completed never raises the completed count. */
  lemma {:induction false} SetCompletedCountDown(s: seq<Activity>, id: string)
    ensures CompletedCount(SetCompleted(s, id, false)) <= CompletedCount(s)
  {
    if s != [] {
      var r := SetCompleted(s, id, false);
      assert r[1..] == SetCompleted(s[1..], id, false);
      SetCompletedCountDown(s[1..], id);
    }
  }

  /** Checking an activity off never lowers the task's progress. */
  lemma CheckingNeverLowersProgress(s: seq<Activity>, id: string)
    ensures Progress(Some(s)) <= Progress(Some(SetCompleted(s, id, true)))
  {
    if s != [] {
      SetCompletedCountUp(s, id);
      RoundedPercentMonotone(CompletedCount(s), CompletedCount(SetCompleted(s, id, true)), |s|);
    }
  }

  /** Unchecking an activity never raises the task's progress. */
  lemma UncheckingNeverRaisesProgress(s: seq<Activity>, id: string)
    ensures Progress(Some(SetCompleted(s, id, false))) <= Progress(Some(s))
  {
    if s != [] {
      SetCompletedCountDown(s, id);
      RoundedPercentMonotone(CompletedCount(SetCompleted(s, id, false)), CompletedCount(s), |s|);
    }
  }

  /** Switching one open activity to completed, with the others fixed, adds exactly one to the count. */
  lemma {:induction false} CompleteOneCount(s: seq<Activity>, i: nat)
    requires i < |s| && !s[i].completed
    ensures CompletedCount(s[i := s[i].(completed := true)]) == CompletedCount(s) + 1
  {
    var t := s[i := s[i].(completed := true)];
    assert s == s[..i] + [s[i]] + s[i + 1..];
    assert t == s[..i] + [t[i]] + s[i + 1..];
    CompletedCountConcat(s[..i] + [s[i]], s[i + 1..]);
    CompletedCountConcat(s[..i], [s[i]]);
    CompletedCountConcat(s[..i] + [t[i]], s[i + 1..]);
    CompletedCountConcat(s[..i], [t[i]]);
  }

  /** Switching one open activity to completed, with the others fixed, never lowers progress. */
  lemma CompleteOneNeverLowersProgress(s: seq<Activity>, i: nat)
    requires i < |s| && !s[i].completed
    ensures Progress(Some(s)) <= Progress(Some(s[i := s[i].(completed := true)]))
  {
    CompleteOneCount(s, i);
    RoundedPercentMonotone(CompletedCount(s), CompletedCount(s) + 1, |s|);
  }

  /** Removal keeps exactly the activities with other ids, so the length drops by the number removed. */
  lemma {:induction false} RemoveActivityLength(s: seq<Activity>, id: string)
    ensures |RemoveActivity(s, id)| == |s| - CountId(s, id)
  {
    if s != [] {
      RemoveActivityLength(s[1..], id);
    }
  }

  /** Removal keeps the surviving activities in their original relative order. */
  lemma {:induction false} RemoveActivityIsSubsequence(s: seq<Activity>, id: string)
    ensures IsSubsequence(RemoveActivity(s, id), s)
  {
    if s != [] {
      RemoveActivityIsSubsequence(s[1..], id);
      if s[0].id == id {
        SubsequenceOfTail(RemoveActivity(s[1..], id), s);
      }
    }
  }

  /** A subsequence of the tail of `s` is a subsequence of `s`. */
  lemma {:induction false} SubsequenceOfTail(r: seq<Activity>, s: seq<Activity>)
    requires s != [] && IsSubsequence(r, s[1..])
    ensures IsSubsequence(r, s)
    decreases |s|, 0
  {
    if r != [] && r[0] == s[0] {
      SubsequenceDropHead(r, s[1..]);
    }
  }

  /** Dropping the first element of a subsequence keeps it a subsequence. */
  lemma {:induction false} SubsequenceDropHead(r: seq<Activity>, s: seq<Activity>)
    requires r != [] && IsSubsequence(r, s)
    ensures IsSubsequence(r[1..], s)
    decreases |s|, 1
  {
    if r[0] != s[0] {
      SubsequenceDropHead(r, s[1..]);
    }
    SubsequenceOfTail(r[1..], s);
  }

  /** Removal distributes over concatenation: it never reorders across a split point. */
  lemma {:induction false} RemoveActivityConcat(s: seq<Activity>, t: seq<Activity>, id: string)
    ensures RemoveActivity(s + t, id) == RemoveActivity(s, id) + RemoveActivity(t, id)
  {
    if s == [] {
      assert s + t == t;
    } else {
      assert (s + t)[1..] == s[1..] + t;
      RemoveActivityConcat(s[1..], t, id);
    }
  }

  /** Removing an id no activity carries leaves the sequence as it was. */
  lemma RemoveActivityNoMatch(s: seq<Activity>, id: string)
    requires id !in Ids(s)
    ensures RemoveActivity(s, id) == s
  {
    RemoveActivityLength(s, id);
    RemoveActivityIsSubsequence(s, id);
    SubsequenceSameLength(RemoveActivity(s, id), s);
  }

  /** A subsequence as long as the sequence is the sequence itself. */
  lemma {:induction false} SubsequenceSameLength(r: seq<Activity>, s: seq<Activity>)
    requires IsSubsequence(r, s) && |r| == |s|
    ensures r == s
    decreases |s|
  {
    if r != [] {
      if r[0] == s[0] {
        SubsequenceSameLength(r[1..], s[1..]);
      } else {
        SubsequenceNoLonger(r, s[1..]);
      }
    }
  }

  /** A subsequence is never longer than the sequence. */
  lemma {:induction false} SubsequenceNoLonger(r: seq<Activity>, s: seq<Activity>)
    requires IsSubsequence(r, s)
    ensures |r| <= |s|
    decreases |s|
  {
    if r != [] {
      if r[0] == s[0] {
        SubsequenceNoLonger(r[1..], s[1..]);
      } else {
        SubsequenceNoLonger(r, s[1..]);
      }
    }
  }

  /** Deleting a just-added activity by its id is the same as deleting that id before the add. */
  lemma RemoveAfterAppend(s: seq<Activity>, a: Activity)
    ensures RemoveActivity(AppendActivity(s, a), a.id) == RemoveActivity(s, a.id)
  {
    RemoveActivityConcat(s, [a], a.id);
  }

  /** Adding an activity whose id is new and then deleting that id restores the original sequence. */
  lemma AppendThenRemoveRestores(s: seq<Activity>, a: Activity)
    requires a.id !in Ids(s)
    ensures RemoveActivity(AppendActivity(s, a), a.id) == s
  {
    RemoveAfterAppend(s, a);
    RemoveActivityNoMatch(s, a.id);
  }

  /** Deleting an activity makes any earlier toggle of that same activity irrelevant. */
  lemma {:induction false} RemoveAfterSetCompleted(s: seq<Activity>, id: string, completed: bool)
    ensures RemoveActivity(SetCompleted(s, id, completed), id) == RemoveActivity(s, id)
  {
    if s != [] {
      var r := SetCompleted(s, id, completed);
      assert r[1..] == SetCompleted(s[1..], id, completed);
      RemoveAfterSetCompleted(s[1..], id, completed);
    }
  }

  /** A newly added activity is open, so adding one never raises the completed count. */
  lemma AppendNewKeepsCompletedCount(s: seq<Activity>, id: string, draft: string)
    ensures CompletedCount(AppendActivity(s, NewActivity(id, draft))) == CompletedCount(s)
  {
    CompletedCountConcat(s, [NewActivity(id, draft)]);
  }

  /** Adding an activity never raises the task's progress. */
  lemma AppendNewNeverRaisesProgress(s: seq<Activity>, id: string, draft: string)
    ensures Progress(Some(AppendActivity(s, NewActivity(id, draft)))) <= Progress(Some(s))
  {
    var r := AppendActivity(s, NewActivity(id, draft));
    AppendNewKeepsCompletedCount(s, id, draft);
    if s != [] {
      var c, n := CompletedCount(s), |s|;
      var p, q := RoundedPercent(c, n), RoundedPercent(c, n + 1);
      assert Progress(Some(s)) == p && Progress(Some(r)) == q;
      if q > p {
        // 2(n+1)(p+1) <= 2(n+1)q <= 200c + n + 1 <= 2n(p+1), impossible
        MulMonotone(2 * (n + 1), p + 1, q);
        Distribute(2 * n, 2, p + 1);
        assert false;
      }
    }
  }

  lemma Distribute(a: nat, b: nat, k: nat)
    ensures (a + b) * k == a * k + b * k
  {
  }
}
