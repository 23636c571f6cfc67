/**
  The reconciler of an app stream: one consumer per desired pod
  (backend/internal/api/app_stream_pool.go: reconcilePods, syncPodStreams, markPodInactive).

  The reconciler lists the pods, compares a fingerprint and a count with what it has, and only
  then synchronises.  Listing with the comparison and synchronising are two steps; consumers can
  end, and take their pod off the active set, before, between and after them.
 */
module Reconcile {
  import opened PodHash

  datatype Phase = Idle | MustSync

  // `names` is the last list, `lost` the pods whose consumers ended since the active set was last
  // compared or synchronised.
  datatype State = State(active: set<string>, lastHash: string, phase: Phase, names: seq<string>, lost: set<string>)

  datatype Event =
    | ListPods(names: seq<string>, initial: bool)
    | Sync
    | MarkInactive(pod: string)

  function Desired(names: seq<string>): set<string> {
    set k | 0 <= k < |names| :: names[k]
  }

  const INIT := State({}, "", Idle, [], {})

  predicate NeedsSync(sha: string -> string, s: State, names: seq<string>, initial: bool) {
    initial || Hash(sha, names) != s.lastHash || |s.active| != |Desired(names)|
  }

  // An event that cannot happen now changes nothing.
  function Apply(sha: string -> string, s: State, e: Event): State {
    match e
    case ListPods(names, initial) =>
      if s.phase.MustSync? then s
      else if NeedsSync(sha, s, names, initial)
      then s.(lastHash := Hash(sha, names), names := names, phase := MustSync)
      else s.(lastHash := Hash(sha, names), names := names, lost := {})
    case Sync =>
      if s.phase.Idle? then s else s.(active := Desired(s.names), phase := Idle, lost := {})
    case MarkInactive(pod) => s.(active := s.active - {pod}, lost := s.lost + {pod})
  }

  function Exec(sha: string -> string, es: seq<Event>): State {
    if es == [] then INIT else Apply(sha, Exec(sha, es[..|es| - 1]), es[|es| - 1])
  }

  // Pod names are DNS labels.
  ghost predicate ProperNames(es: seq<Event>) {
    forall k :: 0 <= k < |es| && es[k].ListPods? ==> NulFree(es[k].names)
  }

  ghost predicate Inv(sha: string -> string, s: State) {
    && NulFree(s.names)
    && s.lastHash == Hash(sha, s.names)
    && (s.phase.Idle? ==> s.active == Desired(s.names) - s.lost)
  }

  lemma SameNamesSameSet(a: seq<string>, b: seq<string>)
    requires multiset(a) == multiset(b)
    ensures Desired(a) == Desired(b)
  {
    forall x ensures x in Desired(a) <==> x in Desired(b) {
      assert x in Desired(a) <==> x in multiset(a);
      assert x in Desired(b) <==> x in multiset(b);
    }
  }

  lemma {:induction false} SubsetOfSameSize(a: set<string>, b: set<string>)
    requires a <= b && |a| == |b|
    ensures a == b
    decreases |a|
  {
    if a != b {
      var x :| x in b && x !in a;
      SubsetIsSmaller(a, b - {x});
    }
  }

  lemma {:induction false} SubsetIsSmaller(a: set<string>, b: set<string>)
    requires a <= b
    ensures |a| <= |b|
    decreases |a|
  {
    if a != {} {
      var x :| x in a;
      SubsetIsSmaller(a - {x}, b - {x});
    }
  }

  // Whenever the shortcut is taken, synchronising would have changed nothing.
  lemma SkipIsNoOp(sha: string -> string, s: State, names: seq<string>)
    requires Injective(sha) && Inv(sha, s) && s.phase.Idle? && NulFree(names)
    requires !NeedsSync(sha, s, names, false)
    ensures s.active == Desired(names)
  {
    HashIdentifiesNames(sha, names, s.names);
    SameNamesSameSet(names, s.names);
    SubsetOfSameSize(s.active, Desired(names));
  }

  // Exactly when a reconcile can skip the synchronisation: it is not the first, the same pods are
  // listed, each as often, and no consumer of any of them ended since the last one.
  lemma SkipIff(sha: string -> string, s: State, names: seq<string>, initial: bool)
    requires Injective(sha) && Inv(sha, s) && s.phase.Idle? && NulFree(names)
    ensures !NeedsSync(sha, s, names, initial) <==>
              !initial && multiset(names) == multiset(s.names) && Desired(names) !! s.lost
  {
    HashIdentifiesNames(sha, names, s.names);
    if multiset(names) == multiset(s.names) {
      SameNamesSameSet(names, s.names);
      if |s.active| == |Desired(names)| {
        SubsetOfSameSize(s.active, Desired(names));
      }
      if Desired(names) !! s.lost {
        assert s.active == Desired(names);
      }
    }
  }

  lemma StepKeepsInv(sha: string -> string, s: State, e: Event)
    requires Injective(sha) && Inv(sha, s) && (e.ListPods? ==> NulFree(e.names))
    ensures Inv(sha, Apply(sha, s, e))
  {
    if e.ListPods? && s.phase.Idle? && !NeedsSync(sha, s, e.names, e.initial) {
      SkipIsNoOp(sha, s, e.names);
    }
  }

  lemma {:induction false} RunsKeepInv(sha: string -> string, es: seq<Event>)
    requires Injective(sha) && ProperNames(es)
    ensures Inv(sha, Exec(sha, es))
  {
    if es != [] {
      RunsKeepInv(sha, es[..|es| - 1]);
      StepKeepsInv(sha, Exec(sha, es[..|es| - 1]), es[|es| - 1]);
    }
  }

  function MarkAll(sha: string -> string, s: State, pods: seq<string>): State {
    if pods == [] then s
    else Apply(sha, MarkAll(sha, s, pods[..|pods| - 1]), MarkInactive(pods[|pods| - 1]))
  }

  // A whole reconcile during which the consumers of `ended` end.
  function Reconciled(sha: string -> string, s: State, names: seq<string>, initial: bool, ended: seq<string>): State {
    Apply(sha, MarkAll(sha, Apply(sha, s, ListPods(names, initial)), ended), Sync)
  }

  lemma {:induction false} MarkedAll(sha: string -> string, s: State, pods: seq<string>)
    ensures MarkAll(sha, s, pods) == s.(active := s.active - Desired(pods), lost := s.lost + Desired(pods))
  {
    if pods != [] {
      var n := |pods| - 1;
      MarkedAll(sha, s, pods[..n]);
      assert Desired(pods) == Desired(pods[..n]) + {pods[n]};
    }
  }

  // A reconcile that synchronises overrules what ended before; one that does not has lost it.
  lemma ReconciledActive(sha: string -> string, s: State, names: seq<string>, initial: bool, ended: seq<string>)
    requires Injective(sha) && Inv(sha, s) && s.phase.Idle? && NulFree(names)
    ensures var t := Reconciled(sha, s, names, initial, ended);
            && Inv(sha, t) && t.phase.Idle? && t.names == names
            && t.active == if NeedsSync(sha, s, names, initial) then Desired(names) else Desired(names) - Desired(ended)
    ensures var mid := MarkAll(sha, Apply(sha, s, ListPods(names, initial)), ended);
            mid.names == names && mid.phase == if NeedsSync(sha, s, names, initial) then MustSync else Idle
  {
    StepKeepsInv(sha, s, ListPods(names, initial));
    MarkedAll(sha, Apply(sha, s, ListPods(names, initial)), ended);
  }

  // The same step without the shortcut.
  function FullSync(sha: string -> string, s: State, e: Event): State {
    if e.ListPods? && s.phase.Idle?
    then s.(lastHash := Hash(sha, e.names), names := e.names, active := Desired(e.names), lost := {})
    else if e.Sync? then s
    else Apply(sha, s, e)
  }

  // Main result: after every run, whenever no reconcile is under way, the active pods are the
  // desired pods of the last list without those whose consumers ended since.
  lemma ActiveIsDesired(sha: string -> string, es: seq<Event>)
    requires Injective(sha) && ProperNames(es)
    ensures Exec(sha, es).phase.Idle? ==>
              Exec(sha, es).active == Desired(LastList(sha, es)) - EndedSince(sha, es)
  {
    RunsKeepInv(sha, es);
    LedgerIsRight(sha, es);
  }

  // The last list that a reconcile used, and the pods whose consumers ended since the last one that
  // compared or synchronised, read off the events.
  ghost function LastList(sha: string -> string, es: seq<Event>): seq<string> {
    if es == [] then []
    else
      var n := |es| - 1;
      if es[n].ListPods? && Exec(sha, es[..n]).phase.Idle? then es[n].names else LastList(sha, es[..n])
  }

  ghost function EndedSince(sha: string -> string, es: seq<Event>): set<string> {
    if es == [] then {}
    else
      var n := |es| - 1;
      var s, before := Exec(sha, es[..n]), EndedSince(sha, es[..n]);
      match es[n]
      case MarkInactive(pod) => before + {pod}
      case Sync => if s.phase.MustSync? then {} else before
      case ListPods(names, initial) =>
        if s.phase.Idle? && !NeedsSync(sha, s, names, initial) then {} else before
  }

  lemma {:induction false} LedgerIsRight(sha: string -> string, es: seq<Event>)
    ensures Exec(sha, es).names == LastList(sha, es) && Exec(sha, es).lost == EndedSince(sha, es)
  {
    if es != [] {
      LedgerIsRight(sha, es[..|es| - 1]);
    }
  }

  // One reconcile with the shortcut ends in the state of one without it, from every reachable state.
  lemma ShortcutRefinesFullSync(sha: string -> string, es: seq<Event>, names: seq<string>, initial: bool)
    requires Injective(sha) && ProperNames(es) && NulFree(names) && Exec(sha, es).phase.Idle?
    ensures var s := Exec(sha, es);
            Apply(sha, Apply(sha, s, ListPods(names, initial)), Sync) == FullSync(sha, s, ListPods(names, initial))
  {
    RunsKeepInv(sha, es);
    var s := Exec(sha, es);
    if !NeedsSync(sha, s, names, initial) {
      SkipIsNoOp(sha, s, names);
    }
  }

  // ---- The loops ----

  class AppStream {
    var activePods: set<string>
    var lastPodHash: string
    ghost var state: State

    ghost predicate Valid(sha: string -> string)
      reads this
    {
      Inv(sha, state) && activePods == state.active && lastPodHash == state.lastHash
    }

    constructor (sha: string -> string)
      ensures Valid(sha) && state == INIT
    {
      activePods, lastPodHash, state := {}, "", INIT;
    }

    // Cancels the consumers of pods that are gone and starts one for every new pod.
    method SyncPodStreams(desired: set<string>) returns (cancelled: set<string>, started: set<string>)
      modifies this`activePods
      ensures activePods == desired
      ensures cancelled == old(activePods) - desired && started == desired - old(activePods)
    {
      cancelled, started := {}, {};
      var todo := activePods;
      while todo != {}
        invariant todo <= old(activePods)
        invariant activePods == (old(activePods) * desired) + (todo - desired)
        invariant cancelled == (old(activePods) - todo) - desired
      {
        var pod :| pod in todo;
        todo := todo - {pod};
        if pod !in desired {
          cancelled := cancelled + {pod};
          activePods := activePods - {pod};
        }
      }
      todo := desired;
      while todo != {}
        invariant todo <= desired
        invariant activePods == (old(activePods) * desired) + (desired - todo)
        invariant started == (desired - todo) - old(activePods)
      {
        var pod :| pod in todo;
        todo := todo - {pod};
        if pod in activePods {
          continue;
        }
        activePods := activePods + {pod};
        started := started + {pod};
      }
    }

    method MarkPodInactive(sha: string -> string, pod: string)
      requires Valid(sha)
      modifies this
      ensures Valid(sha) && state == Apply(sha, old(state), MarkInactive(pod))
      ensures activePods == old(activePods) - {pod}
    {
      activePods := activePods - {pod};
      state := Apply(sha, state, MarkInactive(pod));
    }

    // The list of pods and the comparison with what is active.
    method ComparePods(sha: string -> string, names: seq<string>, initial: bool) returns (mustSync: bool)
      requires Injective(sha) && Valid(sha) && state.phase.Idle? && NulFree(names)
      modifies this
      ensures Valid(sha) && state == Apply(sha, old(state), ListPods(names, initial))
      ensures mustSync == state.phase.MustSync? == NeedsSync(sha, old(state), names, initial)
    {
      var newHash := HashStrings(sha, names);
      var changed := newHash != lastPodHash;
      lastPodHash := newHash;
      mustSync := initial || changed || |activePods| != |Desired(names)|;
      StepKeepsInv(sha, state, ListPods(names, initial));
      state := Apply(sha, state, ListPods(names, initial));
    }

    method EndConsumers(sha: string -> string, ended: seq<string>)
      requires Valid(sha)
      modifies this
      ensures Valid(sha) && state == MarkAll(sha, old(state), ended)
    {
      for k := 0 to |ended|
        invariant Valid(sha) && state == MarkAll(sha, old(state), ended[..k])
      {
        assert ended[..k + 1][..k] == ended[..k];
        MarkPodInactive(sha, ended[k]);
      }
      assert ended[..|ended|] == ended;
    }

    // One reconcile; the consumers of `ended` take their pods off between comparing and synchronising.
    method ReconcilePods(sha: string -> string, names: seq<string>, initial: bool, ended: seq<string>)
      requires Injective(sha) && Valid(sha) && state.phase.Idle? && NulFree(names)
      modifies this
      ensures Valid(sha) && state == Reconciled(sha, old(state), names, initial, ended)
      ensures activePods == if NeedsSync(sha, old(state), names, initial) then Desired(names)
                            else Desired(names) - Desired(ended)
    {
      ReconciledActive(sha, state, names, initial, ended);
      var mustSync := ComparePods(sha, names, initial);
      EndConsumers(sha, ended);
      if mustSync {
        var _, _ := SyncPodStreams(Desired(names));
      }
      state := Apply(sha, state, Sync);
    }
  }
}
