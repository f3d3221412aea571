/**
 Taking over the variables of finished forks, in the order in which the forks finish.

 `V` is the type of variable values.  Deployed contracts are merged by the same rule.
 */
module ForkMerge {
  import opened Common

  type Vars<V> = map<string, V>

  /** The variables after taking over those of `forks`, the first to finish first. */
  function Merged<V>(vars: Vars<V>, forks: seq<Vars<V>>): Vars<V>
    decreases |forks|
  {
    if forks == [] then vars else Merged(vars + forks[0], forks[1..])
  }

  function Lookup<V>(vars: Vars<V>, x: string): Option<V> {
    if x in vars then Some(vars[x]) else None
  }

  ghost predicate SameForks<V>(a: seq<Vars<V>>, b: seq<Vars<V>>) {
    multiset(a) == multiset(b)
  }

  /** Whatever the order in which the forks finish, variable `x` ends up the same. */
  ghost predicate OrderIndependent<V(!new)>(vars: Vars<V>, forks: seq<Vars<V>>, x: string) {
    forall order: seq<Vars<V>> | SameForks(order, forks) ::
      Lookup(Merged(vars, order), x) == Lookup(Merged(vars, forks), x)
  }

  ghost predicate Agree<V>(forks: seq<Vars<V>>, x: string) {
    forall f, g | f in forks && g in forks && x in f && x in g :: f[x] == g[x]
  }

  lemma {:induction false} MergedSnoc<V>(vars: Vars<V>, forks: seq<Vars<V>>, last: Vars<V>)
    ensures Merged(vars, forks + [last]) == Merged(vars, forks) + last
    decreases |forks|
  {
    if forks != [] {
      assert (forks + [last])[0] == forks[0] && (forks + [last])[1..] == forks[1..] + [last];
      MergedSnoc(vars + forks[0], forks[1..], last);
    }
  }

  /** The last fork to hold `x` decides. */
  lemma LastWins<V>(vars: Vars<V>, forks: seq<Vars<V>>, last: Vars<V>, x: string)
    ensures Lookup(Merged(vars, forks + [last]), x)
         == if x in last then Some(last[x]) else Lookup(Merged(vars, forks), x)
  {
    MergedSnoc(vars, forks, last);
  }

  /** What a variable can end up as: the value of a fork holding it, or the parent's when none
      does. */
  lemma {:induction false} MergedValue<V>(vars: Vars<V>, forks: seq<Vars<V>>, x: string)
    ensures (forall f <- forks :: x !in f) ==> Lookup(Merged(vars, forks), x) == Lookup(vars, x)
    ensures (exists f <- forks :: x in f) ==>
      exists f <- forks :: x in f && Lookup(Merged(vars, forks), x) == Some(f[x])
    decreases |forks|
  {
    if forks != [] {
      var n := |forks| - 1;
      assert forks == forks[..n] + [forks[n]];
      LastWins(vars, forks[..n], forks[n], x);
      MergedValue(vars, forks[..n], x);
      if x in forks[n] {
        assert forks[n] in forks;
      }
    }
  }

  lemma SameMembers<V>(a: seq<Vars<V>>, b: seq<Vars<V>>)
    requires SameForks(a, b)
    ensures forall f :: f in a <==> f in b
  {
    forall f
      ensures f in a <==> f in b
    {
      assert f in a <==> f in multiset(a);
      assert f in b <==> f in multiset(b);
    }
  }

  // The forks in an order in which that at `i` finishes last.
  function FinishingLast<V>(forks: seq<Vars<V>>, i: nat): (order: seq<Vars<V>>)
    requires i < |forks|
  {
    forks[..i] + forks[i + 1..] + [forks[i]]
  }

  lemma FinishingLastIsOrder<V>(forks: seq<Vars<V>>, i: nat)
    requires i < |forks|
    ensures SameForks(FinishingLast(forks, i), forks)
  {
    assert forks == forks[..i] + ([forks[i]] + forks[i + 1..]);
  }

  /** The order in which forks finish does not matter for a variable exactly when all the forks
      that hold it agree on it. */
  lemma OrderIndependentIffForksAgree<V(!new)>(vars: Vars<V>, forks: seq<Vars<V>>, x: string)
    ensures OrderIndependent(vars, forks, x) <==> Agree(forks, x)
  {
    if Agree(forks, x) {
      forall order: seq<Vars<V>> | SameForks(order, forks)
        ensures Lookup(Merged(vars, order), x) == Lookup(Merged(vars, forks), x)
      {
        SameMembers(order, forks);
        MergedValue(vars, order, x);
        MergedValue(vars, forks, x);
      }
    }
    if OrderIndependent(vars, forks, x) {
      forall f, g | f in forks && g in forks && x in f && x in g
        ensures f[x] == g[x]
      {
        var i :| 0 <= i < |forks| && forks[i] == f;
        var j :| 0 <= j < |forks| && forks[j] == g;
        FinishingLastDecides(vars, forks, i, x);
        FinishingLastDecides(vars, forks, j, x);
        assert Some(f[x]) == Lookup(Merged(vars, forks), x) == Some(g[x]);
      }
    }
  }

  lemma FinishingLastDecides<V>(vars: Vars<V>, forks: seq<Vars<V>>, i: nat, x: string)
    requires i < |forks| && x in forks[i]
    ensures SameForks(FinishingLast(forks, i), forks)
    ensures Lookup(Merged(vars, FinishingLast(forks, i)), x) == Some(forks[i][x])
  {
    FinishingLastIsOrder(forks, i);
    LastWins(vars, forks[..i] + forks[i + 1..], forks[i], x);
  }

  // ---------------------------------------------------------------- forks of one parent

  /** The variables of forks that start from the parent's and assign those in `writes`. */
  function ForksOf<V>(vars: Vars<V>, writes: seq<Vars<V>>): (forks: seq<Vars<V>>)
    ensures |forks| == |writes|
  {
    seq(|writes|, i requires 0 <= i < |writes| => vars + writes[i])
  }

  /** A variable the parent does not have, assigned by one fork at most, is taken over in every
      order. */
  lemma NewVariableOfOneFork<V(!new)>(vars: Vars<V>, writes: seq<Vars<V>>, x: string)
    requires x !in vars
    requires forall i, j | 0 <= i < |writes| && 0 <= j < |writes| && x in writes[i] && x in writes[j] :: i == j
    ensures OrderIndependent(vars, ForksOf(vars, writes), x)
    ensures forall i | 0 <= i < |writes| && x in writes[i] ::
      Lookup(Merged(vars, ForksOf(vars, writes)), x) == Some(writes[i][x])
  {
    var forks := ForksOf(vars, writes);
    OrderIndependentIffForksAgree(vars, forks, x);
    forall i | 0 <= i < |writes| && x in writes[i]
      ensures Lookup(Merged(vars, forks), x) == Some(writes[i][x])
    {
      assert forks[i] in forks;
      MergedValue(vars, forks, x);
    }
  }

  /** A variable the parent has, with two forks or more, is order independent only when every fork
      ends with the same value; an assignment by one fork alone counts when it changes nothing. */
  lemma ParentVariable<V(!new)>(vars: Vars<V>, writes: seq<Vars<V>>, x: string)
    requires x in vars
    ensures OrderIndependent(vars, ForksOf(vars, writes), x)
      <==> forall i, j | 0 <= i < |writes| && 0 <= j < |writes| ::
             (vars + writes[i])[x] == (vars + writes[j])[x]
  {
    var forks := ForksOf(vars, writes);
    OrderIndependentIffForksAgree(vars, forks, x);
    assert forall i | 0 <= i < |writes| :: forks[i] == vars + writes[i] && forks[i] in forks;
    if Agree(forks, x) {
      forall i, j | 0 <= i < |writes| && 0 <= j < |writes|
        ensures (vars + writes[i])[x] == (vars + writes[j])[x]
      {
        assert forks[i] in forks && forks[j] in forks;
      }
    }
  }

  /** A fork that does not assign `x` still carries the parent's copy of it: finishing last, it
      undoes the assignments of all the others. */
  lemma StaleCopyUndoesAssignments<V>(vars: Vars<V>, writes: seq<Vars<V>>, i: nat, x: string)
    requires x in vars && i < |writes| && x !in writes[i]
    ensures exists order :: SameForks(order, ForksOf(vars, writes)) && Lookup(Merged(vars, order), x) == Some(vars[x])
  {
    var forks := ForksOf(vars, writes);
    FinishingLastDecides(vars, forks, i, x);
  }

  /** Two forks, one counting up: the parent ends with either value. */
  lemma LostUpdate()
    ensures var vars: Vars<nat> := map["n" := 0]; var writes := [map["n" := 1], map[]];
      && !OrderIndependent(vars, ForksOf(vars, writes), "n")
      && Lookup(Merged(vars, ForksOf(vars, writes)), "n") == Some(0)
  {
    var vars: Vars<nat> := map["n" := 0];
    var writes: seq<Vars<nat>> := [map["n" := 1], map[]];
    var forks := ForksOf(vars, writes);
    ParentVariable(vars, writes, "n");
    assert (vars + writes[0])["n"] == 1 && (vars + writes[1])["n"] == 0;
    assert forks == [vars + writes[0]] + [vars + writes[1]];
    LastWins(vars, [vars + writes[0]], vars + writes[1], "n");
  }

  // ---------------------------------------------------------------- the interpreter's state

  /** A finished fork. */
  datatype Fork<V, A> = Fork(variables: Vars<V>, deployedContracts: Vars<A>, tasks: seq<nat>)

  function VariablesOf<V, A>(forks: seq<Fork<V, A>>): (r: seq<Vars<V>>)
    ensures |r| == |forks|
  {
    seq(|forks|, i requires 0 <= i < |forks| => forks[i].variables)
  }

  function ContractsOf<V, A>(forks: seq<Fork<V, A>>): (r: seq<Vars<A>>)
    ensures |r| == |forks|
  {
    seq(|forks|, i requires 0 <= i < |forks| => forks[i].deployedContracts)
  }

  function TasksOf<V, A>(forks: seq<Fork<V, A>>): seq<nat> {
    if forks == [] then [] else TasksOf(forks[..|forks| - 1]) + forks[|forks| - 1].tasks
  }

  // The forks that finish before the first failing one.
  function BeforeFailure<V, A>(finished: seq<Result<Fork<V, A>>>): seq<Fork<V, A>> {
    if finished == [] || finished[0].Err? then [] else [finished[0].value] + BeforeFailure(finished[1..])
  }

  lemma {:induction false} BeforeFailureAt<V, A>(finished: seq<Result<Fork<V, A>>>, n: nat)
    requires n <= |finished| && forall k | 0 <= k < n :: finished[k].Ok?
    requires n == |finished| || finished[n].Err?
    ensures |BeforeFailure(finished)| == n
    ensures forall k | 0 <= k < n :: BeforeFailure(finished)[k] == finished[k].value
    decreases n
  {
    if n > 0 {
      BeforeFailureAt(finished[1..], n - 1);
    }
  }

  class Interpreter<V, A> {
    var variables: Vars<V>
    var deployedContracts: Vars<A>
    var tasks: seq<nat>

    /** Takes the forks in the order in which they finish, up to the first that fails. */
    method HandleForks(finished: seq<Result<Fork<V, A>>>, mergeForkedInterpreters: bool) returns (ok: bool)
      modifies this
      ensures ok <==> forall r <- finished :: r.Ok?
      ensures tasks == old(tasks) + TasksOf(BeforeFailure(finished))
      ensures variables == (if mergeForkedInterpreters
        then Merged(old(variables), VariablesOf(BeforeFailure(finished))) else old(variables))
      ensures deployedContracts == (if mergeForkedInterpreters
        then Merged(old(deployedContracts), ContractsOf(BeforeFailure(finished))) else old(deployedContracts))
    {
      ghost var done: seq<Fork<V, A>> := [];
      var i := 0;
      while i < |finished|
        invariant i <= |finished| && |done| == i
        invariant forall k | 0 <= k < i :: finished[k] == Ok(done[k])
        invariant tasks == old(tasks) + TasksOf(done)
        invariant variables == (if mergeForkedInterpreters
          then Merged(old(variables), VariablesOf(done)) else old(variables))
        invariant deployedContracts == (if mergeForkedInterpreters
          then Merged(old(deployedContracts), ContractsOf(done)) else old(deployedContracts))
      {
        if finished[i].Err? {
          BeforeFailureAt(finished, i);
          assert done == BeforeFailure(finished);
          assert finished[i] in finished;
          return false;
        }
        var fork := finished[i].value;
        MergedSnoc(old(variables), VariablesOf(done), fork.variables);
        MergedSnoc(old(deployedContracts), ContractsOf(done), fork.deployedContracts);
        assert VariablesOf(done + [fork]) == VariablesOf(done) + [fork.variables];
        assert ContractsOf(done + [fork]) == ContractsOf(done) + [fork.deployedContracts];
        assert (done + [fork])[..i] == done;
        tasks := tasks + fork.tasks;
        if mergeForkedInterpreters {
          variables := variables + fork.variables;
          deployedContracts := deployedContracts + fork.deployedContracts;
        }
        done := done + [fork];
        i := i + 1;
      }
      BeforeFailureAt(finished, i);
      assert done == BeforeFailure(finished);
      ok := true;
    }
  }
}
