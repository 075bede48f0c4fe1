/**
 The proficiency store: how it is built from the word list and the supplied
 memory, how a day's queue is drawn from it, and how GOOD words are credited
 back to it at most once per session.
 */
module Proficiency {
  import opened Sequences
  import opened Status
  import opened Settings

  /** The store a session starts from: every word of the word list at
      proficiency 0, overridden by the supplied memory wherever it has an
      entry. */
  function Effective<W>(wordlist: map<W, string>, supplied: map<W, int>): (m: map<W, int>)
    ensures m.Keys == wordlist.Keys + supplied.Keys
    ensures forall w :: w in supplied ==> m[w] == supplied[w]
    ensures forall w :: w in wordlist && w !in supplied ==> m[w] == 0
  {
    (map w | w in wordlist :: 0) + supplied
  }

  /** Words never mastered before: proficiency 0. */
  function NewWords<W>(m: map<W, int>): (r: set<W>)
    ensures r <= m.Keys
  {
    set w | w in m && m[w] == 0
  }

  /** Words seen before but not yet mastered long-term: 0 < proficiency < maxMem. */
  function OldWords<W>(m: map<W, int>, maxMem: int): (r: set<W>)
    ensures r <= m.Keys
  {
    set w | w in m && 0 < m[w] < maxMem
  }

  /** No word is both new and old, and with `maxMem` at most 1 there are no
      old words at all. */
  lemma PoolsDisjoint<W>(m: map<W, int>, maxMem: int)
    ensures NewWords(m) !! OldWords(m, maxMem)
    ensures maxMem <= 1 ==> OldWords(m, maxMem) == {}
  {
  }

  /** The length of the day queue when `n` new and `o` old words are
      available: up to `dayNew` new words, then old words up to the slice
      bound `dayCap` minus the new words taken. */
  function DaySize(n: nat, o: nat, c: Config): nat
  {
    var taken := Min(c.dayNew, n);
    taken + SliceLength(o, c.dayCap - taken)
  }

  /** With `dayNew <= dayCap` the day queue never exceeds `dayCap`, and it is
      as full as the cap and the available words allow. */
  lemma DaySizeWithinCap(n: nat, o: nat, c: Config)
    requires c.dayNew <= c.dayCap
    ensures DaySize(n, o, c) == Min(c.dayCap, Min(c.dayNew, n) + o)
    ensures DaySize(n, o, c) <= c.dayCap
  {
  }

  /** Without `dayNew <= dayCap` the old-word bound can be negative, and a
      negative slice bound keeps all but the last few old words: with
      `dayCap` 1, `dayNew` 3 and three words of each kind, four words are
      scheduled. */
  lemma DaySizeOverrun()
    ensures DaySize(3, 3, Config(14, 7, 1, 3, 3)) == 4
  {
  }

  /** Draw the day's queue from the store (the daily task built in `__init__`). */
  method DayWords<W>(m: map<W, int>, c: Config) returns (day: seq<W>)
    ensures Distinct(day)
    ensures Elems(day) <= NewWords(m) + OldWords(m, c.maxMem)
    ensures |Elems(day) * NewWords(m)| == Min(c.dayNew, |NewWords(m)|)
    ensures |NewWords(m)| <= c.dayNew ==> NewWords(m) <= Elems(day)
    ensures |day| == DaySize(|NewWords(m)|, |OldWords(m, c.maxMem)|, c)
    ensures c.dayNew <= c.dayCap ==> |day| <= c.dayCap
  {
    var oldWords := Arrange(OldWords(m, c.maxMem));
    var newWords := Arrange(NewWords(m));
    var dayNewWords := SliceTo(newWords, c.dayNew);
    var dayOldWords := SliceTo(oldWords, c.dayCap - |dayNewWords|);
    day := Shuffle(dayNewWords + dayOldWords);

    PrefixDistinct(newWords, |dayNewWords|);
    PrefixDistinct(oldWords, |dayOldWords|);
    DaySplit(m, c.maxMem, dayNewWords, dayOldWords, day);
    if |NewWords(m)| <= c.dayNew {
      assert dayNewWords == newWords;
    }
    if c.dayNew <= c.dayCap {
      DaySizeWithinCap(|NewWords(m)|, |OldWords(m, c.maxMem)|, c);
    }
  }

  /** A reordering of some new words followed by some old words. */
  lemma DaySplit<W>(m: map<W, int>, maxMem: int, newPart: seq<W>, oldPart: seq<W>, day: seq<W>)
    requires Distinct(newPart) && Elems(newPart) <= NewWords(m)
    requires Distinct(oldPart) && Elems(oldPart) <= OldWords(m, maxMem)
    requires multiset(day) == multiset(newPart + oldPart)
    ensures Distinct(day)
    ensures Elems(day) == Elems(newPart) + Elems(oldPart)
    ensures Elems(day) * NewWords(m) == Elems(newPart)
    ensures |Elems(day) * NewWords(m)| == |newPart|
  {
    DistinctConcat(newPart, oldPart);
    PermutationDistinct(newPart + oldPart, day);
    DistinctCard(newPart);
  }

  lemma PrefixDistinct<T>(s: seq<T>, k: nat)
    requires Distinct(s) && k <= |s|
    ensures Distinct(s[..k]) && Elems(s[..k]) <= Elems(s)
  {
  }

  /** What one session has written to the store: the proficiencies and the
      words already credited today. */
  datatype Ledger<W> = Ledger(memory: map<W, int>, updated: set<W>)

  /** `m` with every word of `ws` raised by one. */
  function Bump<W>(m: map<W, int>, ws: set<W>): map<W, int>
  {
    map w | w in m :: if w in ws then m[w] + 1 else m[w]
  }

  /** One `update_memory`: every GOOD word not yet credited gains one point
      and is recorded as credited. */
  ghost function Commit<W>(l: Ledger<W>, p: map<W, MemoryStatus>): (r: Ledger<W>)
    ensures r.memory.Keys == l.memory.Keys
    ensures l.updated <= r.updated && Holding(p, {Good}) <= r.updated
    ensures forall w :: w in l.memory ==> l.memory[w] <= r.memory[w] <= l.memory[w] + 1
  {
    var good := Holding(p, {Good});
    Ledger(Bump(l.memory, good - l.updated), l.updated + good)
  }

  /** After a commit every GOOD word is recorded, each word gains at most one
      point, and a word credited before gains nothing. */
  lemma CommitCredits<W>(l: Ledger<W>, p: map<W, MemoryStatus>, w: W)
    requires w in l.memory
    ensures Commit(l, p).memory.Keys == l.memory.Keys
    ensures w in p && p[w] == Good ==> w in Commit(l, p).updated
    ensures Commit(l, p).memory[w] == l.memory[w] + (if w in p && p[w] == Good && w !in l.updated then 1 else 0)
    ensures w in l.updated ==> Commit(l, p).memory[w] == l.memory[w]
  {
  }

  /** A second commit with no transitions in between changes nothing. */
  lemma CommitIdempotent<W>(l: Ledger<W>, p: map<W, MemoryStatus>)
    ensures Commit(Commit(l, p), p) == Commit(l, p)
  {
  }

  /** A session's commits, one per snapshot of the statuses in `ps`. */
  ghost function CommitAll<W>(l: Ledger<W>, ps: seq<map<W, MemoryStatus>>): Ledger<W>
    decreases |ps|
  {
    if ps == [] then l else CommitAll(Commit(l, ps[0]), ps[1..])
  }

  /** The word was GOOD in at least one snapshot. */
  ghost predicate EverGood<W>(w: W, ps: seq<map<W, MemoryStatus>>)
  {
    exists i :: 0 <= i < |ps| && w in ps[i] && ps[i][w] == Good
  }

  /** However many commits a session makes, a word gains exactly one point if
      it was GOOD at some commit and had not been credited before, and none
      otherwise; it is recorded as credited exactly when it was GOOD at some
      commit or had been credited before. A word that turns BAD and then
      GOOD again is therefore not credited twice. */
  lemma {:induction false} CommitAllCreditsOnce<W>(l: Ledger<W>, ps: seq<map<W, MemoryStatus>>, w: W)
    requires w in l.memory
    ensures w in CommitAll(l, ps).memory
    ensures CommitAll(l, ps).memory[w] == l.memory[w] + (if w !in l.updated && EverGood(w, ps) then 1 else 0)
    ensures w in CommitAll(l, ps).updated <==> w in l.updated || EverGood(w, ps)
    decreases |ps|
  {
    if ps != [] {
      var next := Commit(l, ps[0]);
      CommitCredits(l, ps[0], w);
      CommitAllCreditsOnce(next, ps[1..], w);
      assert EverGood(w, ps) <==> (w in ps[0] && ps[0][w] == Good) || EverGood(w, ps[1..]) by {
        if EverGood(w, ps[1..]) {
          var i :| 0 <= i < |ps[1..]| && w in ps[1..][i] && ps[1..][i][w] == Good;
          assert w in ps[i + 1] && ps[i + 1][w] == Good;
        }
        if EverGood(w, ps) {
          var i :| 0 <= i < |ps| && w in ps[i] && ps[i][w] == Good;
          if i > 0 {
            assert w in ps[1..][i - 1] && ps[1..][i - 1][w] == Good;
          }
        }
        if w in ps[0] && ps[0][w] == Good {
          assert EverGood(w, ps);
        }
      }
    }
  }
}
