/** The fields of a work share and a team that the ordered construct updates in place, and the routines that do so. */
module OrderedShare {
  import opened OrderedLoop

  class Share {
    const nthreads: nat
    const teamIds: array<nat>   // ordered_team_ids
    const release: array<nat>   // the values of the semaphores ordered_release
    var cur: nat                // ordered_cur
    var numUsed: nat            // ordered_num_used
    var owner: int              // ordered_owner

    /** A team of n threads whose ordered loop has just been set up. */
    constructor (n: nat)
      requires n >= 1
      ensures nthreads == n && fresh(teamIds) && fresh(release) && teamIds != release
      ensures forall s: State :: Initial(s) && s.n == n ==> Initial(Onto(s))
    {
      nthreads := n;
      teamIds := new nat[n](_ => 0);
      release := new nat[n](_ => 0);
      cur, numUsed, owner := 0, 0, -1;
    }

    /** The state s with the fields of this object in place of its own. */
    ghost function Onto(s: State): State
      reads this, teamIds, release
    {
      s.(n := nthreads, ring := teamIds[..], cur := cur, used := numUsed, owner := owner, sem := release[..])
    }

    method Post(t: nat)
      requires t < release.Length
      modifies release
      ensures release[..] == old(release[..])[t := old(release[..])[t] + 1]
    {
      release[t] := release[t] + 1;
    }

    method SetId(index: nat, t: nat)
      requires index < teamIds.Length
      modifies teamIds
      ensures teamIds[..] == old(teamIds[..])[index := t]
    {
      teamIds[index] := t;
    }

    /** gomp_ordered_first. */
    method First(t: nat, ghost s: State)
      requires teamIds != release && Shape(Onto(s)) && t < nthreads
      modifies this, teamIds, release
      ensures Onto(s) == OrderedLoop.First(old(Onto(s)), t)
    {
      if nthreads == 1 {
        return;
      }
      var index := cur + numUsed;
      if index >= nthreads {
        index := index - nthreads;
      }
      SetId(index, t);
      numUsed := numUsed + 1;
      if numUsed == 1 {
        Post(t);
      }
    }

    /** gomp_ordered_last. */
    method Last(ghost s: State)
      requires teamIds != release && Shape(Onto(s)) && QueueIds(Onto(s)) && (nthreads > 1 ==> numUsed > 0)
      modifies this, release
      ensures Onto(s) == OrderedLoop.Last(old(Onto(s)))
    {
      if nthreads == 1 {
        return;
      }
      owner := -1;
      numUsed := numUsed - 1;
      if numUsed > 0 {
        var next := cur + 1;
        if next == nthreads {
          next := 0;
        }
        SecondId(old(Onto(s)));
        cur := next;
        Post(teamIds[next]);
      }
    }

    /** gomp_ordered_next. */
    method Next(t: nat, ghost s: State)
      requires teamIds != release && Shape(Onto(s)) && QueueIds(Onto(s)) && (nthreads > 1 ==> numUsed > 0)
      requires t < nthreads
      modifies this, teamIds, release
      ensures Onto(s) == OrderedLoop.Next(old(Onto(s)), t)
    {
      hide QueueIds;
      if nthreads == 1 {
        return;
      }
      owner := -1;
      if numUsed == 1 {
        Post(t);
        return;
      }
      SecondId(old(Onto(s)));
      if numUsed < nthreads {
        var tail := cur + numUsed;
        if tail >= nthreads {
          tail := tail - nthreads;
        }
        SetId(tail, t);
      }
      var index := cur + 1;
      if index == nthreads {
        index := 0;
      }
      cur := index;
      Post(teamIds[index]);
    }

    /** gomp_ordered_sync up to the semaphore wait: a thread that need not wait has its turn, and for one that must the
        semaphore is posted if and only if it is first in the queue. */
    method SyncCheck(t: nat, ghost s: State) returns (wait: bool)
      requires Inv(Onto(s)) && Enabled(Onto(s), Check(t))
      ensures !wait ==> HasTurn(Apply(Onto(s), Check(t)), t)
      ensures wait ==> WaitsForTurn(Apply(Onto(s), Check(t)), t)
    {
      CheckFacts(Onto(s), t);
      hide Inv, Enabled, Apply, HasTurn, WaitsForTurn;
      if nthreads == 1 {
        return false;
      }
      return owner != t;
    }

    /** gomp_ordered_sync after the semaphore wait: the thread takes the token and has its turn. */
    method SyncOwn(t: nat, ghost s: State)
      requires Inv(Onto(s)) && Enabled(Onto(s), Own(t))
      modifies this`owner
      ensures var r := Apply(old(Onto(s)), Own(t)); Onto(r) == r && HasTurn(r, t)
    {
      OwnFacts(Onto(s), t);
      hide Inv, HasTurn;
      owner := t;
    }
  }

  /** Thread t is inside its ordered section: it is first in the queue, nobody else is inside or about to be, and no semaphore
      is posted. */
  ghost predicate HasTurn(s: State, t: nat) {
    && Inv(s) && t < s.n && s.phase[t].Owning?
    && (s.n > 1 ==> AtHead(Queue(s), t))
    && forall u :: 0 <= u < s.n ==> s.sem[u] == 0 && (u != t ==> !s.phase[u].Owning? && !s.phase[u].Posted?)
  }

  /** Thread t is at its semaphore, which is posted if and only if it is first in the queue. */
  ghost predicate WaitsForTurn(s: State, t: nat) {
    Inv(s) && t < s.n && s.phase[t].Waiting? && s.n > 1 && (s.sem[t] > 0 <==> AtHead(Queue(s), t))
  }

  lemma TurnOf(s: State, t: nat)
    requires Inv(s) && t < s.n && s.phase[t].Owning?
    ensures HasTurn(s, t)
  {
    hide Place, Queue, QueueOk, PlacesOk, LogOk, Front;
  }

  lemma CheckFacts(s: State, t: nat)
    requires Inv(s) && Enabled(s, Check(t))
    ensures Shape(s) && QueueIds(s) && t < s.n
    ensures if s.n == 1 || s.owner == t then HasTurn(Apply(s, Check(t)), t) else WaitsForTurn(Apply(s, Check(t)), t)
  {
    LocalStepInv(s, Check(t));
    hide Place, Queue, QueueOk, PlacesOk, LogOk, Front;
    if s.n == 1 || s.owner == t { TurnOf(Apply(s, Check(t)), t); }
  }

  lemma OwnFacts(s: State, t: nat)
    requires Inv(s) && Enabled(s, Own(t))
    ensures Shape(s) && QueueIds(s) && t < s.n && HasTurn(Apply(s, Own(t)), t)
  {
    LocalStepInv(s, Own(t));
    hide Inv;
    TurnOf(Apply(s, Own(t)), t);
  }

  lemma SecondId(s: State)
    requires Shape(s) && QueueIds(s) && s.n > 1
    ensures s.used > 1 ==> s.ring[Place(s.n, s.cur, 1)] < s.n
  {
    assert s.used > 1 ==> Queue(s)[1] == s.ring[Place(s.n, s.cur, 1)];
  }
}
