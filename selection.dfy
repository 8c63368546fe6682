/**
 * The session selector: which catalog questions may appear in a new session,
 * the refusal when too few qualify, the draw without replacement and the
 * per-question shuffle of the options.
 */
module Selection {
  import opened Wrappers
  import opened Catalog

  /** The three status filters offered when a session is set up. */
  datatype StatusFilter = Unused | Incorrect | Marked

  /** The list of checks built for one question: one entry per active filter, in the order unused, incorrect, marked. */
  function Checks(id: QuestionId, filters: set<StatusFilter>,
                  attempted: set<QuestionId>, incorrect: set<QuestionId>, marked: set<QuestionId>): seq<bool>
  {
    (if Unused in filters then [id !in attempted] else [])
    + (if Incorrect in filters then [id in incorrect] else [])
    + (if Marked in filters then [id in marked] else [])
  }

  /**
   * The status test of one question: with no filter every question passes,
   * otherwise any passing check admits it.
   */
  predicate Allow(id: QuestionId, filters: set<StatusFilter>,
                  attempted: set<QuestionId>, incorrect: set<QuestionId>, marked: set<QuestionId>)
  {
    if filters != {} then true in Checks(id, filters, attempted, incorrect, marked) else true
  }

  /** The filters combine with OR: a question passes iff no filter is active or it meets one active filter. */
  lemma AllowIsDisjunction(id: QuestionId, filters: set<StatusFilter>,
                           attempted: set<QuestionId>, incorrect: set<QuestionId>, marked: set<QuestionId>)
    ensures Allow(id, filters, attempted, incorrect, marked) <==>
      || filters == {}
      || (Unused in filters && id !in attempted)
      || (Incorrect in filters && id in incorrect)
      || (Marked in filters && id in marked)
  {
  }

  /** A list comprehension with a condition: the entries of `qs` that `keep` admits, in order. */
  function Filter(qs: seq<Question>, keep: Question -> bool): (r: seq<Question>)
    ensures |r| <= |qs|
    ensures forall q :: q in r <==> q in qs && keep(q)
  {
    if qs == [] then []
    else
      var rest := Filter(qs[1..], keep);
      if keep(qs[0]) then [qs[0]] + rest else rest
  }

  /** Filtering never introduces a repeated id. */
  lemma {:induction false} FilterKeepsUniqueIds(qs: seq<Question>, keep: Question -> bool)
    requires UniqueIds(qs)
    ensures UniqueIds(Filter(qs, keep))
  {
    if qs != [] {
      var tail := qs[1..];
      assert UniqueIds(tail) by {
        forall i, j | 0 <= i < j < |tail| ensures tail[i].id != tail[j].id {
          assert tail[i] == qs[i + 1] && tail[j] == qs[j + 1];
        }
      }
      FilterKeepsUniqueIds(tail, keep);
      var rest := Filter(tail, keep);
      forall q | q in rest ensures q.id != qs[0].id {
        var k :| 0 <= k < |tail| && tail[k] == q;
        assert tail[k] == qs[k + 1];
      }
    }
  }

  /**
   * Filtering keeps the list's order: filtering two lists joined is joining
   * the two filtered lists, so each kept entry appears once per occurrence,
   * where it stood.
   */
  lemma {:induction false} FilterAppend(a: seq<Question>, b: seq<Question>, keep: Question -> bool)
    ensures Filter(a + b, keep) == Filter(a, keep) + Filter(b, keep)
  {
    if a == [] {
      assert a + b == b;
    } else {
      assert (a + b)[0] == a[0];
      assert (a + b)[1..] == a[1..] + b;
      FilterAppend(a[1..], b, keep);
    }
  }

  /** A filter that admits every entry keeps the whole list. */
  lemma {:induction false} FilterAll(qs: seq<Question>, keep: Question -> bool)
    requires forall q :: q in qs ==> keep(q)
    ensures Filter(qs, keep) == qs
  {
    if qs != [] {
      assert forall q :: q in qs[1..] ==> q in qs;
      FilterAll(qs[1..], keep);
      assert [qs[0]] + qs[1..] == qs;
    }
  }

  /** The catalog restricted to the selected systems; an empty selection restricts nothing. */
  function BySystem(catalog: seq<Question>, systems: set<string>): (r: seq<Question>)
    ensures |r| <= |catalog|
    ensures forall q :: q in r <==> q in catalog && (systems == {} || q.system in systems)
  {
    if systems != {} then Filter(catalog, (q: Question) => q.system in systems) else catalog
  }

  /** The qualifying pool: the system restriction followed by the status filters. */
  function Pool(catalog: seq<Question>, systems: set<string>, filters: set<StatusFilter>,
                attempted: set<QuestionId>, incorrect: set<QuestionId>, marked: set<QuestionId>): (pool: seq<Question>)
    ensures |pool| <= |catalog|
    ensures forall q :: q in pool <==>
      && q in catalog
      && (systems == {} || q.system in systems)
      && Allow(q.id, filters, attempted, incorrect, marked)
  {
    Filter(BySystem(catalog, systems), (q: Question) => Allow(q.id, filters, attempted, incorrect, marked))
  }

  /** A catalog without repeated ids yields a pool without repeated ids. */
  lemma PoolKeepsUniqueIds(catalog: seq<Question>, systems: set<string>, filters: set<StatusFilter>,
                           attempted: set<QuestionId>, incorrect: set<QuestionId>, marked: set<QuestionId>)
    requires UniqueIds(catalog)
    ensures UniqueIds(Pool(catalog, systems, filters, attempted, incorrect, marked))
  {
    if systems != {} {
      FilterKeepsUniqueIds(catalog, (q: Question) => q.system in systems);
    }
    FilterKeepsUniqueIds(BySystem(catalog, systems), (q: Question) => Allow(q.id, filters, attempted, incorrect, marked));
  }

  /** A catalog whose answers are among their options yields a pool with the same property. */
  lemma PoolKeepsAnswersListed(catalog: seq<Question>, systems: set<string>, filters: set<StatusFilter>,
                               attempted: set<QuestionId>, incorrect: set<QuestionId>, marked: set<QuestionId>)
    requires AnswersListed(catalog)
    ensures AnswersListed(Pool(catalog, systems, filters, attempted, incorrect, marked))
  {
    var pool := Pool(catalog, systems, filters, attempted, incorrect, marked);
    forall i | 0 <= i < |pool| ensures pool[i].answer in pool[i].options {
      assert pool[i] in catalog;
    }
  }

  /** With no system selected and no status filter, the pool is the whole catalog, in catalog order. */
  lemma PoolUnfiltered(catalog: seq<Question>, attempted: set<QuestionId>, incorrect: set<QuestionId>, marked: set<QuestionId>)
    ensures Pool(catalog, {}, {}, attempted, incorrect, marked) == catalog
  {
    FilterAll(catalog, (q: Question) => Allow(q.id, {}, attempted, incorrect, marked));
  }

  /** A draw without replacement of `k` positions out of `n`: what the random sample of the pool returns. */
  ghost predicate IsSample(sample: seq<nat>, n: nat, k: nat) {
    && |sample| == k
    && (forall i :: 0 <= i < k ==> sample[i] < n)
    && (forall i, j :: 0 <= i < j < k ==> sample[i] != sample[j])
  }

  /**
   * The in-place shuffle of one option list: the Fisher-Yates walk from the
   * last position down to position 1, swapping position `i` with a position
   * `j <= i`; `rand(i)` is the random source's draw at that step.
   */
  method ShuffleInPlace(a: array<string>, rand: nat -> nat)
    modifies a
    ensures multiset(a[..]) == multiset(old(a[..]))
  {
    var i := a.Length;
    while i > 1
      invariant 0 <= i <= a.Length
      invariant multiset(a[..]) == multiset(old(a[..]))
    {
      i := i - 1;
      var j := rand(i) % (i + 1);
      a[i], a[j] := a[j], a[i];
    }
  }

  /**
   * Copies the sampled pool entries and shuffles each copy's options in
   * place; `rand(k, step)` is the random source's draw for the k-th copy.
   */
  method Draw(pool: seq<Question>, numQ: nat, sample: seq<nat>, rand: (nat, nat) -> nat)
    returns (selected: seq<Question>)
    requires IsSample(sample, |pool|, numQ)
    ensures |selected| == numQ
    ensures forall k :: 0 <= k < numQ ==> Reordered(selected[k], pool[sample[k]])
    ensures UniqueIds(pool) ==> UniqueIds(selected)
    ensures AnswersListed(pool) ==> AnswersListed(selected)
  {
    selected := seq(numQ, k requires 0 <= k < numQ => pool[sample[k]]);
    var k := 0;
    while k < numQ
      invariant 0 <= k <= numQ && |selected| == numQ
      invariant forall m :: 0 <= m < numQ ==> Reordered(selected[m], pool[sample[m]])
    {
      var q := selected[k];
      var options := new string[|q.options|](m requires 0 <= m < |q.options| => q.options[m]);
      assert options[..] == q.options;
      ShuffleInPlace(options, step => rand(k, step));
      selected := selected[k := q.(options := options[..])];
      k := k + 1;
    }
    if AnswersListed(pool) {
      forall m | 0 <= m < numQ ensures selected[m].answer in selected[m].options {
        var p := pool[sample[m]];
        assert p.answer in multiset(p.options);
      }
    }
  }

  /** Why a session could not be assembled: the pool is smaller than the requested count. */
  datatype SelectError = InsufficientPool(available: nat, requested: nat)

  /**
   * Builds the qualifying pool, refuses when it holds fewer than `numQ`
   * questions, and otherwise draws the session questions from it.
   */
  method Select(catalog: seq<Question>, systems: set<string>, filters: set<StatusFilter>,
                attempted: set<QuestionId>, incorrect: set<QuestionId>, marked: set<QuestionId>,
                numQ: nat, sample: seq<nat>, rand: (nat, nat) -> nat)
    returns (r: Result<seq<Question>, SelectError>)
    requires numQ <= |Pool(catalog, systems, filters, attempted, incorrect, marked)| ==>
               IsSample(sample, |Pool(catalog, systems, filters, attempted, incorrect, marked)|, numQ)
    ensures r.Err? <==> |Pool(catalog, systems, filters, attempted, incorrect, marked)| < numQ
    ensures r.Err? ==> r.error == InsufficientPool(|Pool(catalog, systems, filters, attempted, incorrect, marked)|, numQ)
    ensures r.Ok? ==> |r.value| == numQ
    ensures r.Ok? ==> forall k :: 0 <= k < numQ ==>
      Reordered(r.value[k], Pool(catalog, systems, filters, attempted, incorrect, marked)[sample[k]])
    ensures r.Ok? ==> forall q :: q in r.value ==>
      && (systems == {} || q.system in systems)
      && Allow(q.id, filters, attempted, incorrect, marked)
    ensures r.Ok? && UniqueIds(catalog) ==> UniqueIds(r.value)
    ensures r.Ok? && AnswersListed(catalog) ==> AnswersListed(r.value)
  {
    var pool := Pool(catalog, systems, filters, attempted, incorrect, marked);
    if |pool| < numQ {
      return Err(InsufficientPool(|pool|, numQ));
    }
    if UniqueIds(catalog) {
      PoolKeepsUniqueIds(catalog, systems, filters, attempted, incorrect, marked);
    }
    if AnswersListed(catalog) {
      PoolKeepsAnswersListed(catalog, systems, filters, attempted, incorrect, marked);
    }
    var selected := Draw(pool, numQ, sample, rand);
    forall q | q in selected
      ensures (systems == {} || q.system in systems) && Allow(q.id, filters, attempted, incorrect, marked)
    {
      var k :| 0 <= k < numQ && selected[k] == q;
      assert pool[sample[k]] in pool;
    }
    r := Ok(selected);
  }
}
