/**
 A session as a caller drives it, proved from the contracts of `CoreLogic`
 alone: three fresh words are all scheduled, served in one group, mastered
 and credited once; a word that is unlearned and mastered again needs two
 correct answers and is not credited a second time.
 */
module Scenarios {
  import opened Wrappers
  import opened Status
  import opened Settings
  import opened Proficiency
  import opened Logic

  const Words := map[1 := "a", 2 := "b", 3 := "c"]

  /** The session holds exactly the three words, all with status `st`. */
  ghost predicate AllAt(p: map<int, MemoryStatus>, st: MemoryStatus)
  {
    p.Keys == {1, 2, 3} && forall w :: w in p ==> p[w] == st
  }

  method ThreeWordSession()
  {
    var s := Start();
    ServeFirstGroup(s);
    MasterAll(s);
    ServeFinished(s);
    CommitEach(s);
    Relearn(s);
  }

  /** No stored proficiency and the defaults: all three words are new and fit
      under `dayNew`, so all of them are scheduled. */
  method Start() returns (s: CoreLogic<int>)
    ensures fresh(s) && s.Valid() && s.wordlist == Words && s.config == Defaults
    ensures s.memory == map[1 := 0, 2 := 0, 3 := 0] && s.updated == {}
    ensures AllAt(s.progress, Unknown)
  {
    s := new CoreLogic(Words, map[], None);
    FreshStore();
    assert s.progress.Keys == {1, 2, 3};
  }

  lemma FreshStore()
    ensures Effective(Words, map[]) == map[1 := 0, 2 := 0, 3 := 0]
    ensures NewWords(map[1 := 0, 2 := 0, 3 := 0]) == {1, 2, 3}
    ensures OldWords(map[1 := 0, 2 := 0, 3 := 0], Defaults.maxMem) == {}
  {
    assert Effective(Words, map[]).Keys == {1, 2, 3};
  }

  /** The first group holds all three words. */
  method ServeFirstGroup(s: CoreLogic<int>)
    requires s.Valid() && s.wordlist == Words && s.config == Defaults
    requires AllAt(s.progress, Unknown)
  {
    var group, pc := s.NextGroup();
    assert Holding(s.progress, {Unknown}) == {1, 2, 3};
    assert Holding(s.progress, {Unknown, Wanting}) == {1, 2, 3};
    assert pc == ProgressCount(3, 0, 0, 0);
    assert group.Success? && |group.value| == 3;
  }

  /** One correct answer each makes all three GOOD. */
  method MasterAll(s: CoreLogic<int>)
    requires s.Valid() && AllAt(s.progress, Unknown)
    modifies s
    ensures s.Valid() && AllAt(s.progress, Good)
    ensures s.memory == old(s.memory) && s.updated == old(s.updated)
  {
    s.IKnow(1);
    s.IKnow(2);
    s.IKnow(3);
  }

  /** With every word GOOD the session is finished and the next group is empty. */
  method ServeFinished(s: CoreLogic<int>)
    requires s.Valid() && AllAt(s.progress, Good)
  {
    assert s.CountProgress() == ProgressCount(0, 3, 0, 0);
    var group, pc := s.NextGroup();
    assert group == Success([]);
  }

  /** Committing credits each word once. */
  method CommitEach(s: CoreLogic<int>)
    requires s.Valid() && AllAt(s.progress, Good)
    requires s.memory == map[1 := 0, 2 := 0, 3 := 0] && s.updated == {}
    modifies s
    ensures s.Valid() && AllAt(s.progress, Good)
    ensures s.memory == map[1 := 1, 2 := 1, 3 := 1] && s.updated == {1, 2, 3}
  {
    assert Holding(s.progress, {Good}) == {1, 2, 3};
    s.UpdateMemory();
    assert s.memory == Bump(map[1 := 0, 2 := 0, 3 := 0], {1, 2, 3});
  }

  /** A GOOD word answered wrongly is BAD, needs two correct answers to be
      GOOD again, and earns no second credit. */
  method Relearn(s: CoreLogic<int>)
    requires s.Valid() && AllAt(s.progress, Good)
    requires s.memory == map[1 := 1, 2 := 1, 3 := 1] && s.updated == {1, 2, 3}
    modifies s
  {
    s.IDontKnow(1);
    assert s.progress[1] == Bad;
    s.IKnow(1);
    assert s.progress[1] == Wanting;
    s.IKnow(1);
    assert AllAt(s.progress, Good);
    s.UpdateMemory();
    assert s.memory == map[1 := 1, 2 := 1, 3 := 1];
  }
}
