/**
 The four learning states of a word in today's session, the transition a
 correct answer causes, and the per-status counts that drive group selection.
 */
module Status {
  import opened Sequences

  /** UNKNOWN: not yet tested; GOOD: answered correctly; BAD: answered wrongly;
      WANTING: was BAD, then answered correctly once. */
  datatype MemoryStatus = Unknown | Good | Bad | Wanting

  /** The `know_trans` table: the status a correct answer leads to. It has no
      entry for GOOD, so a correct answer on a GOOD word is not allowed. */
  function KnowTrans(s: MemoryStatus): (t: MemoryStatus)
    requires s != Good
    ensures t == Good || t == Wanting
    ensures t == Wanting <==> s == Bad
  {
    match s
    case Unknown => Good
    case Bad => Wanting
    case Wanting => Good
  }

  /** How many more correct answers a word needs before it is GOOD. */
  function AnswersToGood(s: MemoryStatus): nat
  {
    match s
    case Good => 0
    case Unknown => 1
    case Wanting => 1
    case Bad => 2
  }

  /** Every correct answer brings a word exactly one step closer to GOOD: one
      answer from UNKNOWN or WANTING, two from BAD. */
  lemma KnowTransStep(s: MemoryStatus)
    requires s != Good
    ensures AnswersToGood(KnowTrans(s)) == AnswersToGood(s) - 1
    ensures AnswersToGood(s) > 0
  {
  }

  /** The words of `p` whose status is one of `keep`. */
  ghost function Holding<W>(p: map<W, MemoryStatus>, keep: set<MemoryStatus>): set<W>
  {
    set w | w in p && p[w] in keep
  }

  /** The number of words of `ws` whose status in `p` is `s` (the Counter of
      `count_progress`). */
  function Count<W>(ws: seq<W>, p: map<W, MemoryStatus>, s: MemoryStatus): (n: nat)
    requires Elems(ws) <= p.Keys
    ensures n <= |ws|
    ensures n == 0 <==> forall i :: 0 <= i < |ws| ==> p[ws[i]] != s
  {
    if ws == [] then 0
    else
      assert ws[0] in Elems(ws);
      (if p[ws[0]] == s then 1 else 0) + Count(ws[1..], p, s)
  }

  /** The words of `ws`, in order, whose status in `p` is one of `keep` (the
      list comprehensions of `next_group`). */
  function WithStatus<W>(ws: seq<W>, p: map<W, MemoryStatus>, keep: set<MemoryStatus>): (r: seq<W>)
    requires Elems(ws) <= p.Keys
    ensures Elems(r) == Elems(ws) * Holding(p, keep)
  {
    if ws == [] then []
    else
      assert ws[0] in Elems(ws);
      var rest := WithStatus(ws[1..], p, keep);
      assert Elems(ws) == {ws[0]} + Elems(ws[1..]);
      if p[ws[0]] in keep then
        assert Elems([ws[0]] + rest) == {ws[0]} + Elems(rest);
        [ws[0]] + rest
      else rest
  }

  /** Filtering a duplicate-free list leaves it duplicate-free. */
  lemma {:induction false} WithStatusDistinct<W>(ws: seq<W>, p: map<W, MemoryStatus>, keep: set<MemoryStatus>)
    requires Elems(ws) <= p.Keys && Distinct(ws)
    ensures Distinct(WithStatus(ws, p, keep))
  {
    if ws != [] {
      assert Distinct(ws[1..]);
      WithStatusDistinct(ws[1..], p, keep);
      assert ws[0] in Elems(ws);
      if p[ws[0]] in keep {
        assert ws[0] !in Elems(ws[1..]);
        DistinctConcat([ws[0]], WithStatus(ws[1..], p, keep));
      }
    }
  }

  /** The four counts returned by `count_progress`. */
  datatype ProgressCount = ProgressCount(unknown: nat, good: nat, bad: nat, wanting: nat)
  {
    /** No word is left to test: the session is complete. */
    predicate Finished()
    {
      bad == 0 && wanting == 0 && unknown == 0
    }
  }

  /** `count_progress` over the words `ws` with statuses `p`. */
  function Tally<W>(ws: seq<W>, p: map<W, MemoryStatus>): (c: ProgressCount)
    requires Elems(ws) <= p.Keys
    ensures c.unknown + c.good + c.bad + c.wanting == |ws|
  {
    CountsCover(ws, p);
    ProgressCount(Count(ws, p, Unknown), Count(ws, p, Good), Count(ws, p, Bad), Count(ws, p, Wanting))
  }

  /** Every word has exactly one of the four statuses, so the counts add up. */
  lemma {:induction false} CountsCover<W>(ws: seq<W>, p: map<W, MemoryStatus>)
    requires Elems(ws) <= p.Keys
    ensures Count(ws, p, Unknown) + Count(ws, p, Good) + Count(ws, p, Bad) + Count(ws, p, Wanting) == |ws|
  {
    if ws != [] {
      CountsCover(ws[1..], p);
    }
  }

  /** A count is the length of the list filtered by that status. */
  lemma {:induction false} CountIsFilterLength<W>(ws: seq<W>, p: map<W, MemoryStatus>, s: MemoryStatus)
    requires Elems(ws) <= p.Keys
    ensures Count(ws, p, s) == |WithStatus(ws, p, {s})|
  {
    if ws != [] {
      assert ws[0] in Elems(ws);
      CountIsFilterLength(ws[1..], p, s);
    }
  }

  /** On a duplicate-free list each count is the number of its words holding
      that status. */
  lemma CountIsCardinality<W>(ws: seq<W>, p: map<W, MemoryStatus>, s: MemoryStatus)
    requires Distinct(ws) && Elems(ws) <= p.Keys
    ensures Count(ws, p, s) == |Elems(ws) * Holding(p, {s})|
  {
    CountIsFilterLength(ws, p, s);
    WithStatusDistinct(ws, p, {s});
    DistinctCard(WithStatus(ws, p, {s}));
  }

  /** The candidate statuses of `next_group`: only BAD words when there are
      more than `maxBad` of them or nothing UNKNOWN or WANTING is left,
      otherwise the UNKNOWN and WANTING words. */
  function Candidates(c: ProgressCount, maxBad: nat): (keep: set<MemoryStatus>)
    ensures Good !in keep
    ensures keep == {Bad} || keep == {Unknown, Wanting}
    ensures keep == {Bad} <==> c.bad > maxBad || (c.wanting == 0 && c.unknown == 0)
  {
    if c.bad > maxBad || (c.wanting == 0 && c.unknown == 0) then {Bad} else {Unknown, Wanting}
  }

  /** The candidate pool is empty exactly when the session is finished. */
  lemma CandidatesEmptyWhenFinished<W>(p: map<W, MemoryStatus>, c: ProgressCount, maxBad: nat)
    requires c.unknown == |Holding(p, {Unknown})| && c.bad == |Holding(p, {Bad})|
    requires c.wanting == |Holding(p, {Wanting})|
    ensures Holding(p, Candidates(c, maxBad)) == {} <==> c.Finished()
  {
    if c.bad > maxBad || (c.wanting == 0 && c.unknown == 0) {
      assert Holding(p, Candidates(c, maxBad)) == Holding(p, {Bad});
    } else {
      assert Holding(p, Candidates(c, maxBad)) == Holding(p, {Unknown}) + Holding(p, {Wanting});
    }
  }
}

/** The tunable thresholds of a session. */
module Settings {

  /** `max_bad`: more BAD words than this forces focus-on-BAD mode;
      `group_size`: most words per group; `day_cap`: most words per day;
      `day_new`: most never-seen words per day; `max_mem`: words at or above
      this proficiency are not scheduled. */
  datatype Config = Config(maxBad: nat, groupSize: nat, dayCap: nat, dayNew: nat, maxMem: nat)

  /** The defaults of `Config`. */
  const Defaults := Config(14, 7, 100, 50, 3)

  /** The defaults never take more new words than the day cap allows, and
      serve at least one word per group. */
  lemma DefaultsWithinCap()
    ensures Defaults.dayNew <= Defaults.dayCap
    ensures Defaults.groupSize > 0
    ensures Defaults.maxMem > 1
  {
  }
}
