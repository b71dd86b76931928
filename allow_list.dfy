/**
 * The allow-list handler: a list of glob patterns, read once from the
 * configuration, that decides which candidate package updates may proceed.
 * `ApplyToItems` keeps an item only when its name matches at least one
 * pattern, drops nameless items silently, logs every named item it drops,
 * and leaves everything alone when the list is empty.
 */
module AllowList {
  import opened Wrappers
  import opened Fnmatch

  /**
   * A candidate update: the optional `name` property the handler inspects,
   * and the rest of the record, which it never looks at or changes.
   */
  datatype Item<T> = Item(name: Option<string>, payload: T)

  /**
   * The configuration object, reduced to the one value the handler asks it
   * for: its allow list, already materialised as a list of patterns.
   */
  datatype Config = Config(allowList: seq<string>)

  /**
   * PHP's `empty()` on the `name` property: true for a missing or null
   * property, for the empty string, and for the string "0".
   */
  predicate IsEmptyName(name: Option<string>) {
    name.None? || name.value == "" || name.value == "0"
  }

  /** Some pattern of the list matches the whole name. */
  predicate MatchesAny(list: seq<string>, name: string) {
    exists pattern :: pattern in list && GlobMatch(pattern, name)
  }

  /** The item has a usable name and that name is allowed by the list. */
  predicate Keeps<T>(list: seq<string>, item: Item<T>) {
    !IsEmptyName(item.name) && MatchesAny(list, item.name.value)
  }

  /** The item has a usable name that no pattern allows: it is dropped and logged. */
  predicate IsUnmatched<T>(list: seq<string>, item: Item<T>) {
    !IsEmptyName(item.name) && !MatchesAny(list, item.name.value)
  }

  /** The info message logged when a named item is dropped. */
  function RemovalMessage(name: string): (message: string)
    ensures |message| == |name| + 51
    ensures message[9..9 + |name|] == name
  {
    "Removing " + name + " because it has no match in the allow list"
  }

  /** What one item contributes to the result: itself if it is kept, nothing otherwise. */
  function Kept<T>(list: seq<string>, item: Item<T>): seq<Item<T>> {
    if Keeps(list, item) then [item] else []
  }

  /** What one item contributes to the log: its message if it is unmatched, nothing otherwise. */
  function Logged<T>(list: seq<string>, item: Item<T>): seq<string> {
    if IsUnmatched(list, item) then [RemovalMessage(item.name.value)] else []
  }

  /** The items of a non-empty list's result: those it keeps, in input order. */
  function Survivors<T>(list: seq<string>, items: seq<Item<T>>): seq<Item<T>> {
    if |items| == 0 then [] else Kept(list, items[0]) + Survivors(list, items[1..])
  }

  /** The messages a non-empty list logs: one per unmatched item, in input order. */
  function RemovalMessages<T>(list: seq<string>, items: seq<Item<T>>): seq<string> {
    if |items| == 0 then [] else Logged(list, items[0]) + RemovalMessages(list, items[1..])
  }

  /** What `applyToItems` returns: the items unchanged when the list is empty. */
  function Filter<T>(list: seq<string>, items: seq<Item<T>>): seq<Item<T>> {
    if |list| == 0 then items else Survivors(list, items)
  }

  /** What `applyToItems` logs: nothing at all when the list is empty. */
  function RemovalLog<T>(list: seq<string>, items: seq<Item<T>>): seq<string> {
    if |list| == 0 then [] else RemovalMessages(list, items)
  }

  /**
   * `array_values`: the entries of a PHP array whose keys are all below `n`,
   * in ascending key order (the order in which those keys were inserted),
   * re-indexed from 0 without gaps.
   */
  function ArrayValues<T>(entries: map<nat, T>, n: nat): (values: seq<T>)
    requires forall key :: key in entries ==> key < n
    ensures |values| <= n
  {
    ValuesFrom(entries, 0, n)
  }

  /** The entries with keys in `from..n`, in ascending key order. */
  function ValuesFrom<T>(entries: map<nat, T>, from: nat, n: nat): (values: seq<T>)
    requires from <= n
    ensures |values| <= n - from
    decreases n - from
  {
    if from == n then []
    else (if from in entries then [entries[from]] else []) + ValuesFrom(entries, from + 1, n)
  }

  /**
   * The PHP array `$items` after the loop has looked at the first `done`
   * entries: every later entry is still there, an earlier one only if kept.
   */
  ghost function Pending<T>(list: seq<string>, items: seq<Item<T>>, done: nat): map<nat, Item<T>> {
    map delta: nat | delta < |items| && (delta >= done || Keeps(list, items[delta])) :: items[delta]
  }

  /** Before the loop, `$items` holds every entry. */
  lemma PendingStart<T>(list: seq<string>, items: seq<Item<T>>)
    ensures Pending(list, items, 0) == map delta: nat | delta < |items| :: items[delta]
  {
  }

  /** One step of the loop unsets entry `done` unless the item is kept. */
  lemma PendingStep<T>(list: seq<string>, items: seq<Item<T>>, done: nat)
    requires done < |items|
    ensures Pending(list, items, done + 1) ==
            if Keeps(list, items[done]) then Pending(list, items, done)
            else Pending(list, items, done) - {done}
  {
  }

  /** Keeping distributes over concatenation: survivors stay in input order. */
  lemma {:induction false} SurvivorsConcat<T>(list: seq<string>, a: seq<Item<T>>, b: seq<Item<T>>)
    ensures Survivors(list, a + b) == Survivors(list, a) + Survivors(list, b)
  {
    if |a| > 0 {
      assert (a + b)[0] == a[0] && (a + b)[1..] == a[1..] + b;
      SurvivorsConcat(list, a[1..], b);
    } else {
      assert a + b == b;
    }
  }

  /** Logging distributes over concatenation: messages come in input order. */
  lemma {:induction false} RemovalMessagesConcat<T>(list: seq<string>, a: seq<Item<T>>, b: seq<Item<T>>)
    ensures RemovalMessages(list, a + b) == RemovalMessages(list, a) + RemovalMessages(list, b)
  {
    if |a| > 0 {
      assert (a + b)[0] == a[0] && (a + b)[1..] == a[1..] + b;
      RemovalMessagesConcat(list, a[1..], b);
    } else {
      assert a + b == b;
    }
  }

  /** Compacting the array the loop leaves behind yields exactly the survivors. */
  lemma {:induction false} CompactedPending<T>(list: seq<string>, items: seq<Item<T>>, from: nat)
    requires from <= |items|
    ensures ValuesFrom(Pending(list, items, |items|), from, |items|) == Survivors(list, items[from..])
    decreases |items| - from
  {
    if from < |items| {
      CompactedPending(list, items, from + 1);
      assert items[from..][0] == items[from] && items[from..][1..] == items[from + 1..];
    }
  }

  /** The sink that `LoggerAwareTrait::setLogger` installs: it records info messages. */
  class Logger {
    var messages: seq<string>

    constructor ()
      ensures messages == []
    {
      messages := [];
    }

    method Info(message: string)
      modifies this
      ensures messages == old(messages) + [message]
    {
      messages := messages + [message];
    }
  }

  class AllowListHandler {
    /** The patterns, fixed at construction. */
    const list: seq<string>
    /** The optional logger; null until one is set. */
    var logger: Logger?

    constructor (list: seq<string>)
      ensures this.list == list && logger == null
    {
      this.list := list;
      logger := null;
    }

    static method CreateFromArray(list: seq<string>) returns (handler: AllowListHandler)
      ensures fresh(handler) && handler.list == list && handler.logger == null
    {
      handler := new AllowListHandler(list);
    }

    static method CreateFromConfig(config: Config) returns (handler: AllowListHandler)
      ensures fresh(handler) && handler.list == config.allowList && handler.logger == null
    {
      handler := CreateFromArray(config.allowList);
    }

    method SetLogger(logger: Logger)
      modifies this
      ensures this.logger == logger
    {
      this.logger := logger;
    }

    /** The inner loop: tries the patterns in order and stops at the first match. */
    method MatchesAllowList(name: string) returns (matched: bool)
      ensures matched <==> MatchesAny(list, name)
    {
      for i := 0 to |list|
        invariant forall j :: 0 <= j < i ==> !GlobMatch(list[j], name)
      {
        if GlobMatch(list[i], name) {
          return true;
        }
      }
      return false;
    }

    /**
     * Filters `items`: the result is `Filter(list, items)`, and the logger,
     * if one is set, has received `RemovalLog(list, items)` after what it
     * held before.
     */
    method ApplyToItems<T>(items: seq<Item<T>>) returns (result: seq<Item<T>>)
      modifies logger
      ensures result == Filter(list, items)
      ensures logger != null ==> logger.messages == old(logger.messages) + RemovalLog(list, items)
    {
      if |list| == 0 {
        return items;
      }
      var remaining: map<nat, Item<T>> := map delta: nat | delta < |items| :: items[delta];
      PendingStart(list, items);
      for delta := 0 to |items|
        invariant remaining == Pending(list, items, delta)
        invariant logger != null ==>
                    logger.messages == old(logger.messages) + RemovalMessages(list, items[..delta])
      {
        var item := items[delta];
        PendingStep(list, items, delta);
        RemovalMessagesConcat(list, items[..delta], [item]);
        assert items[..delta + 1] == items[..delta] + [item];
        if IsEmptyName(item.name) {
          remaining := remaining - {delta};
          continue;
        }
        var matched := MatchesAllowList(item.name.value);
        if matched {
          continue;
        }
        if logger != null {
          logger.Info(RemovalMessage(item.name.value));
        }
        remaining := remaining - {delta};
      }
      assert items[..|items|] == items;
      CompactedPending(list, items, 0);
      assert items[0..] == items;
      result := ArrayValues(remaining, |items|);
    }
  }
}
