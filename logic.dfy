/**
 The session scheduler: one learner's study session over one day's queue.
 Construction draws the queue from the proficiency store, the learner's
 answers move each word through the status machine, `UpdateMemory` credits
 mastered words back to the store, and `NextGroup` picks the next words to
 test until none is left.
 */
module Logic {
  import opened Wrappers
  import opened Sequences
  import opened Status
  import opened Settings
  import opened Proficiency

  /** One entry of a group: a word and its text in the word list. */
  datatype Card<W> = Card(word: W, text: string)

  class CoreLogic<W(==)> {
    /** The word list: word -> text. */
    const wordlist: map<W, string>
    const config: Config
    /** The proficiency store: word -> number of times it was mastered. */
    var memory: map<W, int>
    /** The words credited to `memory` in this session. */
    var updated: set<W>
    /** The day queue: the words of `progress` in insertion order. */
    var order: seq<W>
    /** Each scheduled word's status in this session. */
    var progress: map<W, MemoryStatus>

    /** `order` and `progress` together form the ordered dictionary of the
        session: each key once, in insertion order. */
    ghost predicate Valid()
      reads this
    {
      Distinct(order) && Elems(order) == progress.Keys
    }

    /** The part of the state that outlives the session, with the credit guard. */
    ghost function Store(): Ledger<W>
      reads this
    {
      Ledger(memory, updated)
    }

    /** Build the store and today's queue, every word UNKNOWN. Without a
        configuration the defaults apply. */
    constructor (wordlist: map<W, string>, memory: map<W, int>, config: Option<Config>)
      ensures Valid()
      ensures this.wordlist == wordlist
      ensures this.config == if config.Some? then config.value else Defaults
      ensures this.memory == Effective(wordlist, memory)
      ensures updated == {}
      ensures forall w :: w in progress ==> progress[w] == Unknown
      ensures progress.Keys <= NewWords(this.memory) + OldWords(this.memory, this.config.maxMem)
      ensures |progress.Keys * NewWords(this.memory)| == Min(this.config.dayNew, |NewWords(this.memory)|)
      ensures |NewWords(this.memory)| <= this.config.dayNew ==> NewWords(this.memory) <= progress.Keys
      ensures |progress| == DaySize(|NewWords(this.memory)|, |OldWords(this.memory, this.config.maxMem)|, this.config)
      ensures this.config.dayNew <= this.config.dayCap ==> |progress| <= this.config.dayCap
    {
      var m := Effective(wordlist, memory);
      var c := if config.None? then Defaults else config.value;
      var day := DayWords(m, c);
      this.wordlist := wordlist;
      this.updated := {};
      this.memory := m;
      this.config := c;
      var statuses := map w | w in day :: Unknown;
      assert statuses.Keys == Elems(day);
      DistinctCard(day);
      assert |statuses| == |day|;
      order := day;
      progress := statuses;
    }

    /** `count_progress`: how many words hold each status. */
    function CountProgress(): (c: ProgressCount)
      reads this
      requires Valid()
      ensures c.unknown + c.good + c.bad + c.wanting == |progress|
      ensures c.unknown == |Holding(progress, {Unknown})| && c.good == |Holding(progress, {Good})|
      ensures c.bad == |Holding(progress, {Bad})| && c.wanting == |Holding(progress, {Wanting})|
      ensures c.Finished() <==> forall w :: w in progress ==> progress[w] == Good
    {
      DistinctCard(order);
      CountIsCardinality(order, progress, Unknown);
      CountIsCardinality(order, progress, Good);
      CountIsCardinality(order, progress, Bad);
      CountIsCardinality(order, progress, Wanting);
      assert forall s :: Elems(order) * Holding(progress, {s}) == Holding(progress, {s});
      assert forall w :: w in progress ==> w in Holding(progress, {progress[w]});
      Tally(order, progress)
    }

    /** `update_memory`: credit every GOOD word not credited yet, once. The
        source fails on a word it has to credit that the store lacks. */
    method UpdateMemory()
      requires Valid()
      requires Holding(progress, {Good}) - updated <= memory.Keys
      modifies this
      ensures Valid() && order == old(order) && progress == old(progress)
      ensures Store() == Commit(old(Store()), progress)
      ensures Holding(progress, {Good}) <= updated
      ensures memory.Keys == old(memory.Keys)
    {
      var i := 0;
      while i < |order|
        invariant 0 <= i <= |order|
        invariant order == old(order) && progress == old(progress)
        invariant updated == old(updated) + Holding(progress, {Good}) * Elems(order[..i])
        invariant memory == Bump(old(memory), Holding(progress, {Good}) * Elems(order[..i]) - old(updated))
      {
        var w := order[i];
        assert Elems(order[..i + 1]) == Elems(order[..i]) + {w} by {
          assert order[..i + 1] == order[..i] + [w];
        }
        if progress[w] == Good && w !in updated {
          memory := memory[w := memory[w] + 1];
          updated := updated + {w};
        }
        i := i + 1;
      }
      assert order[..i] == order;
    }

    /** `i_know`: a correct answer on a word that is not GOOD yet. */
    method IKnow(word: W)
      requires Valid()
      requires word in progress && progress[word] != Good
      modifies this
      ensures Valid() && order == old(order)
      ensures progress == old(progress)[word := KnowTrans(old(progress)[word])]
      ensures memory == old(memory) && updated == old(updated)
    {
      progress := progress[word := KnowTrans(progress[word])];
    }

    /** `i_dont_know`: a wrong answer makes any word BAD, a GOOD one included.
        A word not in the session is added at the end of the queue, as the
        dictionary assignment of the source does. */
    method IDontKnow(word: W)
      requires Valid()
      modifies this
      ensures Valid()
      ensures progress == old(progress)[word := Bad]
      ensures order == if word in old(progress) then old(order) else old(order) + [word]
      ensures memory == old(memory) && updated == old(updated)
    {
      if word !in progress {
        assert Elems(order + [word]) == Elems(order) + {word};
        DistinctConcat(order, [word]);
        order := order + [word];
      }
      progress := progress[word := Bad];
    }

    /** `next_group`: the counts, and up to `groupSize` distinct words drawn
        in random order from the candidate pool (the BAD words in
        focus-on-BAD mode, otherwise the UNKNOWN and WANTING words), each with
        its text. The group is empty exactly when no word is left to test
        (or `groupSize` is 0). A candidate drawn without a text in the word
        list is the source's lookup failure; when the whole pool fits in one
        group, every candidate is drawn, so one without a text always fails. */
    method NextGroup() returns (group: Result<seq<Card<W>>, W>, pc: ProgressCount)
      requires Valid()
      ensures pc == CountProgress()
      ensures pc.Finished() ==> group == Success([])
      ensures var pool := Holding(progress, Candidates(pc, config.maxBad));
        && (group.Success? ==> |group.value| == Min(config.groupSize, |pool|))
        && (group.Success? ==> forall i :: 0 <= i < |group.value| ==>
              group.value[i].word in pool && group.value[i].word in wordlist
              && group.value[i].text == wordlist[group.value[i].word])
        && (group.Success? ==> forall i, j :: 0 <= i < j < |group.value| ==> group.value[i].word != group.value[j].word)
        && (group.Failure? ==> group.error in pool && group.error !in wordlist)
        && (pool <= wordlist.Keys ==> group.Success?)
        && (config.groupSize >= |pool| && !(pool <= wordlist.Keys) ==> group.Failure?)
      ensures config.groupSize == 0 ==> group == Success([])
      ensures group.Success? && config.groupSize > 0 ==> (group.value == [] <==> pc.Finished())
    {
      pc := CountProgress();
      CandidatesEmptyWhenFinished(progress, pc, config.maxBad);
      if pc.Finished() {
        return Success([]), pc;
      }
      var keep := Candidates(pc, config.maxBad);
      var words := WithStatus(order, progress, keep);
      ghost var pool := Holding(progress, keep);
      WithStatusDistinct(order, progress, keep);
      assert Elems(words) == pool;
      var drawn := Shuffle(words);
      PermutationDistinct(words, drawn);
      DistinctCard(drawn);

      var cards: seq<Card<W>> := [];
      var k := 0;
      while k < |drawn|
        invariant 0 <= k <= |drawn| && k <= config.groupSize
        invariant |cards| == k
        invariant forall i :: 0 <= i < k ==> drawn[i] in wordlist && cards[i] == Card(drawn[i], wordlist[drawn[i]])
      {
        if k == config.groupSize {
          break;
        }
        var w := drawn[k];
        if w !in wordlist {
          assert w in Elems(drawn);
          return Failure(w), pc;
        }
        cards := cards + [Card(w, wordlist[w])];
        k := k + 1;
      }
      assert forall i :: 0 <= i < k ==> drawn[i] in Elems(drawn);
      if config.groupSize >= |drawn| {
        assert k == |drawn|;
        assert Elems(drawn) <= wordlist.Keys;
      }
      group := Success(cards);
    }
  }
}
