/**
 The synthetic id generator (`getId`): it tries `name_id_k` for k = counter,
 counter + 1, ... against the ids handed out so far and records the id it
 settles on. The search gives up once the incremented counter reaches 1000,
 so it can hand out an id that is already taken.
 */
module UniqueIds {
  import Decimal

  /** The counter bound of the search. */
  const CAP: nat := 1000

  function Max(a: nat, b: nat): nat {
    if a < b then b else a
  }

  /** The candidate id `${name}_id_${k}`. */
  function Candidate(name: string, k: nat): (id: string)
    ensures |id| >= |name| + 5
  {
    name + "_id_" + Decimal.Render(k)
  }

  /** A candidate starts with `name_id_`, and the digits after it read back as the counter. */
  lemma CandidateCounter(name: string, k: nat)
    ensures var id := Candidate(name, k);
            && id[..|name| + 4] == name + "_id_"
            && Decimal.Parse(id[|name| + 4..]) == k
  {
    assert Candidate(name, k)[|name| + 4..] == Decimal.Render(k);
    Decimal.ParseRender(k);
  }

  lemma CandidateInjective(name: string, a: nat, b: nat)
    ensures Candidate(name, a) == Candidate(name, b) ==> a == b
  {
    if Candidate(name, a) == Candidate(name, b) {
      var n := |name + "_id_"|;
      assert Decimal.Render(a) == Candidate(name, a)[n..];
      assert Decimal.Render(b) == Candidate(name, b)[n..];
      Decimal.RenderInjective(a, b);
    }
  }

  /**
   The counter of the last candidate the do-while tries: the first k from
   `counter` on whose candidate is free, unless k + 1 reaches the cap first.
   A candidate is never the empty string, so the `find` in the loop test is
   truthy exactly when the candidate is already taken.
   */
  function LastTried(ids: seq<string>, name: string, counter: nat): (k: nat)
    decreases CAP - counter
    ensures counter <= k <= Max(counter, CAP - 1)
    ensures forall j :: counter <= j < k ==> Candidate(name, j) in ids
    ensures Candidate(name, k) !in ids || k + 1 >= CAP
  {
    if Candidate(name, counter) in ids && counter + 1 < CAP then LastTried(ids, name, counter + 1)
    else counter
  }

  /** `id` is one of the candidates `getId(name, counter)` may settle on. */
  ghost predicate IdFrom(id: string, name: string, counter: nat) {
    exists k :: counter <= k <= Max(counter, CAP - 1) && id == Candidate(name, k)
  }

  /** The id handed out and the list of used ids after recording it. */
  datatype Draw = Draw(id: string, ids: seq<string>)

  /** `getId`. */
  function GetId(ids: seq<string>, name: string, counter: nat): (r: Draw)
    ensures r.ids == ids + [r.id]
    ensures r.id == Candidate(name, LastTried(ids, name, counter))
    ensures IdFrom(r.id, name, counter)
    ensures r.id in ids ==>
              forall j :: counter <= j <= Max(counter, CAP - 1) ==> Candidate(name, j) in ids
  {
    var id := Candidate(name, LastTried(ids, name, counter));
    Draw(id, ids + [id])
  }

  /** `getId` as written: a do-while over a mutable counter. */
  method GetIdLoop(ids: seq<string>, name: string, counter: nat) returns (id: string, ids': seq<string>)
    ensures Draw(id, ids') == GetId(ids, name, counter)
  {
    var k := counter;
    id := Candidate(name, k);
    k := k + 1;
    while id in ids && k < CAP
      invariant counter < k
      invariant id == Candidate(name, k - 1)
      invariant LastTried(ids, name, counter) == LastTried(ids, name, k - 1)
      decreases CAP - k
    {
      id := Candidate(name, k);
      k := k + 1;
    }
    ids' := ids + [id];
  }

  /** The candidates with counters lo .. hi - 1. */
  function Candidates(name: string, lo: nat, hi: nat): (s: set<string>)
    decreases hi - lo
    ensures forall j :: lo <= j < hi ==> Candidate(name, j) in s
  {
    if lo >= hi then {} else {Candidate(name, lo)} + Candidates(name, lo + 1, hi)
  }

  lemma {:induction false} CandidatesCount(name: string, lo: nat, hi: nat)
    requires lo <= hi
    ensures |Candidates(name, lo, hi)| == hi - lo
    decreases hi - lo
  {
    if lo < hi {
      CandidatesCount(name, lo + 1, hi);
      if Candidate(name, lo) in Candidates(name, lo + 1, hi) {
        var j := CandidateFrom(name, lo + 1, hi, Candidate(name, lo));
        CandidateInjective(name, lo, j);
      }
    }
  }

  /** Every member of `Candidates(name, lo, hi)` has a counter in range. */
  lemma {:induction false} CandidateFrom(name: string, lo: nat, hi: nat, id: string) returns (j: nat)
    requires id in Candidates(name, lo, hi)
    ensures lo <= j < hi && id == Candidate(name, j)
    decreases hi - lo
  {
    if id == Candidate(name, lo) {
      j := lo;
    } else {
      j := CandidateFrom(name, lo + 1, hi, id);
    }
  }

  lemma {:induction false} SetOfSeqBound(s: seq<string>)
    ensures |set x | x in s| <= |s|
  {
    if s != [] {
      SetOfSeqBound(s[1..]);
      assert (set x | x in s) == {s[0]} + (set x | x in s[1..]);
    }
  }

  /**
   Pigeonhole: while fewer ids are taken than there are counters left below
   the cap, `getId` hands out an id that was not yet taken.
   */
  lemma GetIdFreshWhenRoom(ids: seq<string>, name: string, counter: nat)
    requires counter < CAP
    requires |ids| < CAP - counter
    ensures GetId(ids, name, counter).id !in ids
  {
    var r := GetId(ids, name, counter);
    if r.id in ids {
      AllCandidatesTaken(ids, name, counter);
    }
  }

  /** If every candidate below the cap is taken, at least that many ids are. */
  lemma AllCandidatesTaken(ids: seq<string>, name: string, counter: nat)
    requires counter < CAP
    requires forall j :: counter <= j < CAP ==> Candidate(name, j) in ids
    ensures CAP - counter <= |ids|
  {
    var taken := set x | x in ids;
    var cands := Candidates(name, counter, CAP);
    forall id | id in cands
      ensures id in taken
    {
      var j := CandidateFrom(name, counter, CAP, id);
    }
    CandidatesCount(name, counter, CAP);
    SubsetCard(cands, taken);
    SetOfSeqBound(ids);
  }

  lemma SubsetCard(a: set<string>, b: set<string>)
    requires a <= b
    ensures |a| <= |b|
  {
    assert b == a + (b - a);
  }
}
