/** Collecting approvals for one action, signer by signer, until enough distinct operators have approved. */
module Approvals {
  import opened Wrappers

  datatype Approval = Approval(actionId: string, operatorId: string, signature: string)

  /** Per action, the accepted approvals in the order they came. */
  type Table = map<string, seq<Approval>>

  function ApprovalsFor(table: Table, actionId: string): seq<Approval> {
    if actionId in table then table[actionId] else []
  }

  predicate Listed(list: seq<Approval>, operatorId: string) {
    exists i :: 0 <= i < |list| && list[i].operatorId == operatorId
  }

  class ApprovalSet {
    const threshold: int
    const known: set<string>
    var byAction: Table

    constructor (threshold: int, operators: seq<string>)
      ensures this.threshold == threshold && known == (set o | o in operators) && byAction == map[]
    {
      this.threshold := threshold;
      known := set o | o in operators;
      byAction := map[];
    }

    /** One approval per known operator and action; anything else changes nothing. */
    method Add(a: Approval) returns (accepted: bool)
      modifies this
      ensures accepted <==> && a.operatorId in known
                            && forall b :: b in ApprovalsFor(old(byAction), a.actionId) ==> b.operatorId != a.operatorId
      ensures accepted ==> ApprovalsFor(byAction, a.actionId) == ApprovalsFor(old(byAction), a.actionId) + [a]
      ensures !accepted ==> forall id :: ApprovalsFor(byAction, id) == ApprovalsFor(old(byAction), id)
      ensures forall id :: id != a.actionId ==> ApprovalsFor(byAction, id) == ApprovalsFor(old(byAction), id)
    {
      if a.operatorId !in known {
        return false;
      }
      if a.actionId !in byAction {
        byAction := byAction[a.actionId := []];
      }
      var list := byAction[a.actionId];
      assert list == ApprovalsFor(old(byAction), a.actionId);
      for i := 0 to |list|
        invariant forall j :: 0 <= j < i ==> list[j].operatorId != a.operatorId
      {
        if list[i].operatorId == a.operatorId {
          return false;
        }
      }
      byAction := byAction[a.actionId := list + [a]];
      accepted := true;
    }

    function Count(actionId: string): nat
      reads this
    {
      |ApprovalsFor(byAction, actionId)|
    }

    predicate IsMet(actionId: string)
      reads this
    {
      Count(actionId) >= threshold
    }
  }

  // ---------- collecting ----------

  /** The known operators whose answer approves this action, among the first `n` answers. */
  ghost function Approving(known: set<string>, actionId: string, answers: seq<Option<Approval>>, n: nat): set<string>
    requires n <= |answers|
  {
    set i | 0 <= i < n && answers[i].Some? && answers[i].value.actionId == actionId
            && answers[i].value.operatorId in known :: answers[i].value.operatorId
  }

  ghost function OperatorsOf(list: seq<Approval>, n: nat): set<string>
    requires n <= |list|
  {
    set i | 0 <= i < n :: list[i].operatorId
  }

  ghost predicate OnePerOperator(list: seq<Approval>, who: set<string>) {
    && (forall i, j :: 0 <= i < j < |list| ==> list[i].operatorId != list[j].operatorId)
    && who == OperatorsOf(list, |list|)
  }

  lemma {:induction false} OneEachCountsTo(list: seq<Approval>, n: nat)
    requires n <= |list| && forall i, j :: 0 <= i < j < |list| ==> list[i].operatorId != list[j].operatorId
    ensures |OperatorsOf(list, n)| == n
  {
    if n > 0 {
      OneEachCountsTo(list, n - 1);
      assert OperatorsOf(list, n) == OperatorsOf(list, n - 1) + {list[n - 1].operatorId};
    } else {
      assert OperatorsOf(list, n) == {};
    }
  }

  lemma OneEachCounts(list: seq<Approval>, who: set<string>)
    requires OnePerOperator(list, who)
    ensures |who| == |list|
  {
    OneEachCountsTo(list, |list|);
  }

  lemma AppendOperator(list: seq<Approval>, who: set<string>, a: Approval)
    requires OnePerOperator(list, who) && a.operatorId !in who
    ensures OnePerOperator(list + [a], who + {a.operatorId})
  {
    var more := list + [a];
    assert more[|list|] == a;
    forall i | 0 <= i < |list| ensures more[i] == list[i] {}
    forall x | x in who + {a.operatorId} ensures x in OperatorsOf(more, |more|) {
      if x in who {
        var i :| 0 <= i < |list| && list[i].operatorId == x;
        assert more[i].operatorId == x;
      }
    }
  }

  lemma ApprovingGrows(known: set<string>, actionId: string, answers: seq<Option<Approval>>, n: nat)
    requires n < |answers|
    ensures var a := answers[n];
            Approving(known, actionId, answers, n + 1)
            == Approving(known, actionId, answers, n)
               + if a.Some? && a.value.actionId == actionId && a.value.operatorId in known then {a.value.operatorId} else {}
  {
  }

  lemma {:induction false} SubsetSize(a: set<string>, b: set<string>)
    requires a <= b
    ensures |a| <= |b|
    decreases a
  {
    if a != {} {
      var x :| x in a;
      SubsetSize(a - {x}, b - {x});
    }
  }

  /** What asking the first `n` signers has brought for this action. */
  ghost predicate Gathered(known: set<string>, actionId: string, answers: seq<Option<Approval>>, n: nat, list: seq<Approval>)
    requires n <= |answers|
  {
    && OnePerOperator(list, Approving(known, actionId, answers, n))
    && forall a :: a in list ==> a.actionId == actionId && Some(a) in answers
  }

  lemma GatherOne(known: set<string>, actionId: string, answers: seq<Option<Approval>>, n: nat,
                  list: seq<Approval>, list': seq<Approval>)
    requires n < |answers| && Gathered(known, actionId, answers, n, list)
    requires var a := answers[n];
             list' == if a.Some? && a.value.actionId == actionId && a.value.operatorId in known
                         && !Listed(list, a.value.operatorId) then list + [a.value] else list
    ensures Gathered(known, actionId, answers, n + 1, list')
  {
    ApprovingGrows(known, actionId, answers, n);
    if list' != list {
      AppendOperator(list, Approving(known, actionId, answers, n), answers[n].value);
    }
  }

  /**
   `answers` are what the signers would answer if asked in turn, absent where one refuses or
   fails. Asking stops as soon as the threshold is met: it is met exactly when enough distinct
   known operators among all of them approve this action, and then by no approval too many.
   */
  method CollectApprovals(actionId: string, answers: seq<Option<Approval>>, threshold: int, operators: seq<string>)
    returns (met: bool, approvals: seq<Approval>, asked: nat)
    ensures asked <= |answers| && (!met ==> asked == |answers|)
    ensures var known := set o | o in operators;
            && (met <==> |Approving(known, actionId, answers, |answers|)| >= threshold)
            && OnePerOperator(approvals, Approving(known, actionId, answers, asked))
            && (forall a :: a in approvals ==> a.actionId == actionId && Some(a) in answers)
            && (asked > 1 ==> |Approving(known, actionId, answers, asked - 1)| < threshold)
    ensures met && threshold >= 1 ==> |approvals| == threshold
  {
    var collected := new ApprovalSet(threshold, operators);
    ghost var known := collected.known;
    ghost var list := [];
    asked := 0;
    met := false;
    while asked < |answers| && !met
      invariant asked <= |answers| && collected.threshold == threshold && collected.known == known
      invariant fresh(collected) && list == ApprovalsFor(collected.byAction, actionId)
      invariant Gathered(known, actionId, answers, asked, list)
      invariant asked > 0 ==> (met <==> |list| >= threshold)
      invariant asked > 1 ==> |Approving(known, actionId, answers, asked - 1)| < threshold
      invariant met && threshold >= 1 ==> asked > 0 && |list| == threshold
    {
      ghost var before := list;
      OneEachCounts(before, Approving(known, actionId, answers, asked));
      if answers[asked].Some? {
        var accepted := collected.Add(answers[asked].value);
      }
      list := ApprovalsFor(collected.byAction, actionId);
      GatherOne(known, actionId, answers, asked, before, list);
      asked := asked + 1;
      met := collected.IsMet(actionId);
    }
    met := collected.IsMet(actionId);
    approvals := ApprovalsFor(collected.byAction, actionId);
    OneEachCounts(approvals, Approving(known, actionId, answers, asked));
    SubsetSize(Approving(known, actionId, answers, asked), Approving(known, actionId, answers, |answers|));
  }
}
