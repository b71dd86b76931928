/**
 * What the allow-list filter promises, stated over the specification
 * functions `Filter` and `RemovalLog` that `ApplyToItems` is proved to
 * compute: identity on an empty list, soundness and completeness of the kept
 * items, order and multiplicity, idempotence, and the logging side channel.
 */
module AllowListProperties {
  import opened Wrappers
  import opened Fnmatch
  import opened AllowList

  /** `sub` is `s` with some elements left out and the rest in their order. */
  ghost predicate IsSubsequence<T>(sub: seq<T>, s: seq<T>)
    decreases |s|
  {
    if |sub| == 0 then true
    else if |s| == 0 then false
    else (sub[0] == s[0] && IsSubsequence(sub[1..], s[1..])) || IsSubsequence(sub, s[1..])
  }

  /** The number of items whose name is empty in PHP's sense. */
  function NamelessCount<T>(items: seq<Item<T>>): (n: nat)
    ensures n <= |items|
  {
    if |items| == 0 then 0
    else (if IsEmptyName(items[0].name) then 1 else 0) + NamelessCount(items[1..])
  }

  /** With an empty allow list every item passes, nameless ones included, and nothing is logged. */
  lemma EmptyListIsIdentity<T>(items: seq<Item<T>>)
    ensures Filter([], items) == items
    ensures RemovalLog([], items) == []
  {
  }

  lemma {:induction false} SubsequenceReflexive<T>(s: seq<T>)
    ensures IsSubsequence(s, s)
  {
    if |s| > 0 {
      SubsequenceReflexive(s[1..]);
    }
  }

  lemma {:induction false} SurvivorsMembership<T>(list: seq<string>, items: seq<Item<T>>)
    ensures forall x :: x in Survivors(list, items) <==> x in items && Keeps(list, x)
  {
    if |items| > 0 {
      SurvivorsMembership(list, items[1..]);
      assert items == [items[0]] + items[1..];
    }
  }

  /**
   * Soundness and completeness: with a non-empty list, an item is in the
   * result exactly when it is in the input, has a non-empty name, and that
   * name matches some pattern.
   */
  lemma FilterMembership<T>(list: seq<string>, items: seq<Item<T>>)
    requires |list| > 0
    ensures forall x :: x in Filter(list, items) <==>
              x in items && !IsEmptyName(x.name) &&
              exists pattern :: pattern in list && GlobMatch(pattern, x.name.value)
  {
    SurvivorsMembership(list, items);
  }

  lemma {:induction false} SurvivorsSubsequence<T>(list: seq<string>, items: seq<Item<T>>)
    ensures IsSubsequence(Survivors(list, items), items)
  {
    if |items| > 0 {
      SurvivorsSubsequence(list, items[1..]);
      var rest := Survivors(list, items[1..]);
      if Keeps(list, items[0]) {
        assert Survivors(list, items) == [items[0]] + rest;
        assert ([items[0]] + rest)[1..] == rest;
      } else {
        assert Survivors(list, items) == rest;
      }
    }
  }

  /** The result keeps the input's relative order: it is a subsequence of the input. */
  lemma FilterSubsequence<T>(list: seq<string>, items: seq<Item<T>>)
    ensures IsSubsequence(Filter(list, items), items)
  {
    if |list| == 0 {
      SubsequenceReflexive(items);
    } else {
      SurvivorsSubsequence(list, items);
    }
  }

  lemma {:induction false} SurvivorsCount<T>(list: seq<string>, items: seq<Item<T>>)
    ensures forall x :: multiset(Survivors(list, items))[x] ==
                        if Keeps(list, x) then multiset(items)[x] else 0
  {
    if |items| > 0 {
      SurvivorsCount(list, items[1..]);
      assert items == [items[0]] + items[1..];
    }
  }

  /**
   * Items are only kept or dropped, never changed or duplicated: every kept
   * item occurs in the result as often as in the input, every other item not
   * at all.
   */
  lemma FilterCount<T>(list: seq<string>, items: seq<Item<T>>)
    requires |list| > 0
    ensures forall x :: multiset(Filter(list, items))[x] ==
                        if Keeps(list, x) then multiset(items)[x] else 0
  {
    SurvivorsCount(list, items);
  }

  lemma {:induction false} SubsequenceCount<T>(sub: seq<T>, s: seq<T>)
    requires IsSubsequence(sub, s)
    ensures multiset(sub) <= multiset(s)
    decreases |s|
  {
    if |sub| > 0 {
      assert s == [s[0]] + s[1..];
      if sub[0] == s[0] && IsSubsequence(sub[1..], s[1..]) {
        SubsequenceCount(sub[1..], s[1..]);
        assert sub == [sub[0]] + sub[1..];
      } else {
        SubsequenceCount(sub, s[1..]);
      }
    }
  }

  /**
   * The contract above pins the result down: any subsequence of the input
   * with those multiplicities is the filter's result. So order, soundness,
   * completeness and multiplicity together are the whole specification.
   */
  lemma {:induction false} FilterUnique<T>(list: seq<string>, items: seq<Item<T>>, r: seq<Item<T>>)
    requires |list| > 0
    requires IsSubsequence(r, items)
    requires forall x :: multiset(r)[x] == if Keeps(list, x) then multiset(items)[x] else 0
    ensures r == Filter(list, items)
    decreases |items|
  {
    if |items| == 0 {
      assert |r| == 0;
    } else {
      var a := items[0];
      var rest := items[1..];
      assert items == [a] + rest;
      if Keeps(list, a) {
        assert multiset(r)[a] == multiset(items)[a] > multiset(rest)[a];
        if !(r[0] == a && IsSubsequence(r[1..], rest)) {
          SubsequenceCount(r, rest);
          assert false;
        }
        assert r == [a] + r[1..];
        forall x ensures multiset(r[1..])[x] == if Keeps(list, x) then multiset(rest)[x] else 0 {
          assert multiset(r)[x] == multiset(r[1..])[x] + (if x == a then 1 else 0);
        }
        FilterUnique(list, rest, r[1..]);
      } else {
        assert |r| > 0 ==> r[0] != a by {
          if |r| > 0 {
            assert r[0] in multiset(r);
          }
        }
        forall x ensures multiset(r)[x] == if Keeps(list, x) then multiset(rest)[x] else 0 {
        }
        FilterUnique(list, rest, r);
      }
    }
  }

  lemma {:induction false} SurvivorsIdempotent<T>(list: seq<string>, items: seq<Item<T>>)
    ensures Survivors(list, Survivors(list, items)) == Survivors(list, items)
    ensures RemovalMessages(list, Survivors(list, items)) == []
  {
    if |items| > 0 {
      SurvivorsIdempotent(list, items[1..]);
      var rest := Survivors(list, items[1..]);
      if Keeps(list, items[0]) {
        assert Survivors(list, items) == [items[0]] + rest;
        assert ([items[0]] + rest)[0] == items[0] && ([items[0]] + rest)[1..] == rest;
      } else {
        assert Survivors(list, items) == rest;
      }
    }
  }

  /**
   * Filtering twice is filtering once, and the second pass logs nothing:
   * every survivor has a name that some pattern matches.
   */
  lemma FilterIdempotent<T>(list: seq<string>, items: seq<Item<T>>)
    ensures Filter(list, Filter(list, items)) == Filter(list, items)
    ensures RemovalLog(list, Filter(list, items)) == []
  {
    SurvivorsIdempotent(list, items);
  }

  /** Distinct names give distinct removal messages. */
  lemma RemovalMessageInjective(a: string, b: string)
    requires RemovalMessage(a) == RemovalMessage(b)
    ensures a == b
  {
    assert a == RemovalMessage(a)[9..9 + |a|];
  }

  lemma {:induction false} RemovalMessagesCover<T>(list: seq<string>, items: seq<Item<T>>)
    ensures forall m :: m in RemovalMessages(list, items) ==>
              exists x :: x in items && IsUnmatched(list, x) && m == RemovalMessage(x.name.value)
    ensures forall x :: x in items && IsUnmatched(list, x) ==>
              RemovalMessage(x.name.value) in RemovalMessages(list, items)
  {
    if |items| > 0 {
      RemovalMessagesCover(list, items[1..]);
      assert items == [items[0]] + items[1..];
    }
  }

  /**
   * Logging coverage: every message names an input item that has a name no
   * pattern matches, and every such item is named in a message.
   */
  lemma LogCoverage<T>(list: seq<string>, items: seq<Item<T>>)
    ensures forall m :: m in RemovalLog(list, items) ==>
              exists x :: x in items && IsUnmatched(list, x) && m == RemovalMessage(x.name.value)
    ensures |list| > 0 ==> forall x :: x in items && IsUnmatched(list, x) ==>
              RemovalMessage(x.name.value) in RemovalLog(list, items)
  {
    RemovalMessagesCover(list, items);
  }

  /** A name that some pattern matches never appears in a removal message. */
  lemma MatchedNeverLogged<T>(list: seq<string>, items: seq<Item<T>>, name: string)
    requires MatchesAny(list, name)
    ensures RemovalMessage(name) !in RemovalLog(list, items)
  {
    RemovalMessagesCover(list, items);
  }

  lemma {:induction false} SurvivorsConservation<T>(list: seq<string>, items: seq<Item<T>>)
    ensures |Survivors(list, items)| + |RemovalMessages(list, items)| + NamelessCount(items) == |items|
  {
    if |items| > 0 {
      SurvivorsConservation(list, items[1..]);
    }
  }

  /**
   * Every input item is accounted for exactly once: it is kept, or dropped
   * with one message, or dropped silently for having no usable name.
   */
  lemma FilterConservation<T>(list: seq<string>, items: seq<Item<T>>)
    requires |list| > 0
    ensures |Filter(list, items)| + |RemovalLog(list, items)| + NamelessCount(items) == |items|
  {
    SurvivorsConservation(list, items);
  }

  /** Appending items appends their survivors and their messages, in order. */
  lemma FilterConcat<T>(list: seq<string>, a: seq<Item<T>>, b: seq<Item<T>>)
    ensures Filter(list, a + b) == Filter(list, a) + Filter(list, b)
    ensures RemovalLog(list, a + b) == RemovalLog(list, a) + RemovalLog(list, b)
  {
    SurvivorsConcat(list, a, b);
    RemovalMessagesConcat(list, a, b);
  }

  /**
   * An item whose name is empty in PHP's sense (absent, null, "" or "0") is
   * dropped by a non-empty list without a log message, whatever the patterns.
   */
  lemma NamelessDroppedSilently<T>(list: seq<string>, item: Item<T>)
    requires |list| > 0 && IsEmptyName(item.name)
    ensures Filter(list, [item]) == []
    ensures RemovalLog(list, [item]) == []
  {
    assert [item] == [item] + [];
    SurvivorsConcat(list, [item], []);
    RemovalMessagesConcat(list, [item], []);
    assert !Keeps(list, item) && !IsUnmatched(list, item);
  }

  /**
   * Applying one handler twice gives the same items as applying it once, and
   * the second pass adds nothing to the log.
   */
  method ApplyTwice<T>(list: seq<string>, items: seq<Item<T>>)
    returns (once: seq<Item<T>>, twice: seq<Item<T>>, secondLog: seq<string>)
    ensures once == Filter(list, items)
    ensures twice == once
    ensures secondLog == []
  {
    var handler := AllowListHandler.CreateFromArray(list);
    var logger := new Logger();
    once := handler.ApplyToItems(items);
    handler.SetLogger(logger);
    twice := handler.ApplyToItems(once);
    secondLog := logger.messages;
    FilterIdempotent(list, items);
  }
}
