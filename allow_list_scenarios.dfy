/**
 * The handler's documented behaviour on concrete inputs: the allow lists and
 * package names of the repository's own test cases
 * (tests/ListHandlerTest.php), run through `CreateFromConfig` and
 * `ApplyToItems` as a client would.
 */
module AllowListScenarios {
  import opened Wrappers
  import opened Fnmatch
  import opened AllowList

  /** An item that carries only a name, like the test fixtures. */
  function Named(name: string): Item<()> {
    Item(Some(name), ())
  }

  /** The four-package fixture of the exact and wildcard tests. */
  function FourPackages(): seq<Item<()>> {
    [Named("package1"), Named("package2"), Named("package3"), Named("drupal/core")]
  }

  /** The five-package fixture of the mixed test. */
  function FivePackages(): seq<Item<()>> {
    [Named("package1"), Named("symfony/yaml"), Named("package2"), Named("package3"), Named("drupal/core")]
  }

  /** The three allow-list patterns of the mixed test. */
  function MixedList(): seq<string> {
    ["drupal/*", "not-drupal/core", "sy*/y*ml"]
  }

  /** A literal pattern matches the identical name. */
  lemma ExactNameMatches()
    ensures GlobMatch("drupal/core", "drupal/core")
  {
    LiteralMatch("drupal/core", "drupal/core");
  }

  /** A literal pattern is not a prefix test: `drupal/core` rejects `drupal/not-core`. */
  lemma ExactNameIsWhole()
    ensures !GlobMatch("drupal/core", "drupal/not-core")
  {
    LiteralMatch("drupal/core", "drupal/not-core");
  }

  /** The prefix `drupal/` followed by a star accepts every name under `drupal/`. */
  lemma PrefixStarMatches()
    ensures GlobMatch("drupal/*", "drupal/not-core")
  {
    assert "drupal/" + "*" == "drupal/*";
    LiteralPrefixStar("drupal/", "drupal/not-core");
    assert "drupal/not-core"[..7] == "drupal/";
  }

  /** `drupal/core` is under the `drupal/` prefix. */
  lemma CoreUnderPrefix()
    ensures GlobMatch("drupal/*", "drupal/core")
  {
    assert "drupal/" + "*" == "drupal/*";
    LiteralPrefixStar("drupal/", "drupal/core");
    assert "drupal/core"[..7] == "drupal/";
  }

  /** That pattern is anchored at the start: it rejects `not-drupal/not-core`. */
  lemma PrefixStarIsAnchored()
    ensures !GlobMatch("drupal/*", "not-drupal/not-core")
  {
    assert "drupal/" + "*" == "drupal/*";
    LiteralPrefixStar("drupal/", "not-drupal/not-core");
    assert "not-drupal/not-core"[0] != "drupal/"[0];
  }

  /** `sy` followed by a star matches `symfony`. */
  lemma SymfonyPrefix()
    ensures GlobMatch("sy*", "symfony")
  {
    assert "sy" + "*" == "sy*";
    LiteralPrefixStar("sy", "symfony");
    assert "symfony"[..2] == "sy";
  }

  /** `/y`, a star and `ml` match `/yaml`. */
  lemma YamlSuffix()
    ensures GlobMatch("/y*ml", "/yaml")
  {
    assert "/y" + "*ml" == "/y*ml";
    assert "/yaml"[..2] == "/y" && "/yaml"[2..] == "aml";
    LiteralMatch("/y", "/y");
    GlobConcat("/y", "*ml", "/yaml");
  }

  /** Two stars in one pattern, "sy*" + "/y*ml", match `symfony/yaml`. */
  lemma TwoStarsMatch()
    ensures GlobMatch("sy*/y*ml", "symfony/yaml")
  {
    SymfonyPrefix();
    YamlSuffix();
    assert "sy*" + "/y*ml" == "sy*/y*ml";
    assert "symfony/yaml"[..7] == "symfony" && "symfony/yaml"[7..] == "/yaml";
    GlobConcat("sy*", "/y*ml", "symfony/yaml");
  }

  /** A pattern whose first character is literal rejects a name that starts differently. */
  lemma HeadMismatch(pattern: string, name: string)
    requires |pattern| > 0 && !IsWildcard(pattern[0])
    requires |name| == 0 || name[0] != pattern[0]
    ensures !GlobMatch(pattern, name)
  {
  }

  /** A list whose patterns all start with a literal other than the name's first character drops it. */
  lemma DroppedOnHeadMismatch(list: seq<string>, name: string)
    requires |name| > 0
    requires forall pattern :: pattern in list ==>
               |pattern| > 0 && !IsWildcard(pattern[0]) && pattern[0] != name[0]
    ensures !Keeps(list, Named(name))
  {
    forall pattern | pattern in list ensures !GlobMatch(pattern, name) {
      HeadMismatch(pattern, name);
    }
  }

  /** One item at a time: the survivors and messages of a single item. */
  lemma SurvivorsCons<T>(list: seq<string>, item: Item<T>, rest: seq<Item<T>>)
    ensures Survivors(list, [item] + rest) == Kept(list, item) + Survivors(list, rest)
    ensures RemovalMessages(list, [item] + rest) == Logged(list, item) + RemovalMessages(list, rest)
  {
    assert ([item] + rest)[0] == item && ([item] + rest)[1..] == rest;
  }

  /** Appending one item appends its survivor, if it is kept. */
  lemma SurvivorsSnoc<T>(list: seq<string>, items: seq<Item<T>>, item: Item<T>)
    ensures Survivors(list, items + [item]) == Survivors(list, items) + Kept(list, item)
  {
    SurvivorsConcat(list, items, [item]);
    SurvivorsCons(list, item, []);
  }

  /** Appending one item appends its message, if it is unmatched. */
  lemma MessagesSnoc<T>(list: seq<string>, items: seq<Item<T>>, item: Item<T>)
    ensures RemovalMessages(list, items + [item]) == RemovalMessages(list, items) + Logged(list, item)
  {
    RemovalMessagesConcat(list, items, [item]);
    SurvivorsCons(list, item, []);
  }

  /** The survivors of a four-item list, one item at a time. */
  lemma SurvivorsOfFour<T>(list: seq<string>, a: Item<T>, b: Item<T>, c: Item<T>, d: Item<T>)
    ensures Survivors(list, [a, b, c, d]) ==
            Kept(list, a) + Kept(list, b) + Kept(list, c) + Kept(list, d)
  {
    SurvivorsCons(list, a, []);
    assert [a] + [b] == [a, b];
    SurvivorsSnoc(list, [a], b);
    assert [a, b] + [c] == [a, b, c];
    SurvivorsSnoc(list, [a, b], c);
    assert [a, b, c] + [d] == [a, b, c, d];
    SurvivorsSnoc(list, [a, b, c], d);
  }

  /** The messages of a four-item list, one item at a time. */
  lemma MessagesOfFour<T>(list: seq<string>, a: Item<T>, b: Item<T>, c: Item<T>, d: Item<T>)
    ensures RemovalMessages(list, [a, b, c, d]) ==
            Logged(list, a) + Logged(list, b) + Logged(list, c) + Logged(list, d)
  {
    SurvivorsCons(list, a, []);
    assert [a] + [b] == [a, b];
    MessagesSnoc(list, [a], b);
    assert [a, b] + [c] == [a, b, c];
    MessagesSnoc(list, [a, b], c);
    assert [a, b, c] + [d] == [a, b, c, d];
    MessagesSnoc(list, [a, b, c], d);
  }

  lemma ExactKeepsCore()
    ensures Keeps(["drupal/core"], Named("drupal/core"))
  {
    ExactNameMatches();
  }

  lemma ExactListFilter()
    ensures Filter(["drupal/core"], FourPackages()) == [Named("drupal/core")]
  {
    var list := ["drupal/core"];
    DroppedOnHeadMismatch(list, "package1");
    DroppedOnHeadMismatch(list, "package2");
    DroppedOnHeadMismatch(list, "package3");
    ExactKeepsCore();
    SurvivorsOfFour(list, Named("package1"), Named("package2"), Named("package3"), Named("drupal/core"));
  }

  lemma ExactListSingle()
    ensures Filter(["drupal/core"], [Named("drupal/not-core")]) == []
  {
    ExactNameIsWhole();
    SurvivorsCons(["drupal/core"], Named("drupal/not-core"), []);
  }

  lemma WildcardKeepsCore()
    ensures Keeps(["drupal/*"], Named("drupal/core"))
  {
    CoreUnderPrefix();
  }

  lemma WildcardListFilter()
    ensures Filter(["drupal/*"], FourPackages()) == [Named("drupal/core")]
  {
    var list := ["drupal/*"];
    DroppedOnHeadMismatch(list, "package1");
    DroppedOnHeadMismatch(list, "package2");
    DroppedOnHeadMismatch(list, "package3");
    WildcardKeepsCore();
    SurvivorsOfFour(list, Named("package1"), Named("package2"), Named("package3"), Named("drupal/core"));
  }

  lemma WildcardKeepsNotCore()
    ensures Filter(["drupal/*"], [Named("drupal/not-core")]) == [Named("drupal/not-core")]
  {
    assert Keeps(["drupal/*"], Named("drupal/not-core")) by {
      PrefixStarMatches();
    }
    SurvivorsCons(["drupal/*"], Named("drupal/not-core"), []);
  }

  lemma WildcardDropsNotDrupal()
    ensures Filter(["drupal/*"], [Named("not-drupal/not-core")]) == []
  {
    PrefixStarIsAnchored();
    SurvivorsCons(["drupal/*"], Named("not-drupal/not-core"), []);
  }

  lemma MixedKeepsYaml()
    ensures Keeps(MixedList(), Named("symfony/yaml"))
  {
    TwoStarsMatch();
  }

  lemma MixedKeepsCore()
    ensures Keeps(MixedList(), Named("drupal/core"))
  {
    CoreUnderPrefix();
  }

  lemma MixedDropsPackage(name: string)
    requires |name| > 0 && name[0] == 'p'
    ensures !Keeps(MixedList(), Named(name))
  {
    DroppedOnHeadMismatch(MixedList(), name);
  }

  /** The survivors and messages of a five-item list, one item at a time. */
  lemma SurvivorsOfFive<T>(list: seq<string>, a: Item<T>, b: Item<T>, c: Item<T>, d: Item<T>, e: Item<T>)
    ensures Survivors(list, [a, b, c, d, e]) ==
            Kept(list, a) + Kept(list, b) + Kept(list, c) + Kept(list, d) + Kept(list, e)
    ensures RemovalMessages(list, [a, b, c, d, e]) ==
            Logged(list, a) + Logged(list, b) + Logged(list, c) + Logged(list, d) + Logged(list, e)
  {
    assert [a, b, c, d] + [e] == [a, b, c, d, e];
    SurvivorsOfFour(list, a, b, c, d);
    SurvivorsSnoc(list, [a, b, c, d], e);
    MessagesOfFour(list, a, b, c, d);
    MessagesSnoc(list, [a, b, c, d], e);
  }

  lemma MixedListFilter()
    ensures Filter(MixedList(), FivePackages()) == [Named("symfony/yaml"), Named("drupal/core")]
    ensures RemovalLog(MixedList(), FivePackages()) ==
            [RemovalMessage("package1"), RemovalMessage("package2"), RemovalMessage("package3")]
  {
    var list := MixedList();
    MixedDropsPackage("package1");
    MixedDropsPackage("package2");
    MixedDropsPackage("package3");
    MixedKeepsYaml();
    MixedKeepsCore();
    SurvivorsOfFive(list, Named("package1"), Named("symfony/yaml"), Named("package2"),
                    Named("package3"), Named("drupal/core"));
  }

  lemma MixedKeepsNotCore()
    ensures Filter(MixedList(), [Named("drupal/not-core")]) == [Named("drupal/not-core")]
  {
    assert Keeps(MixedList(), Named("drupal/not-core")) by {
      PrefixStarMatches();
    }
    SurvivorsCons(MixedList(), Named("drupal/not-core"), []);
  }

  lemma MixedDropsNotDrupal()
    ensures Filter(MixedList(), [Named("not-drupal/not-core")]) == []
  {
    assert !Keeps(MixedList(), Named("not-drupal/not-core")) by {
      PrefixStarIsAnchored();
      LiteralMatch("not-drupal/core", "not-drupal/not-core");
      HeadMismatch("sy*/y*ml", "not-drupal/not-core");
    }
    SurvivorsCons(MixedList(), Named("not-drupal/not-core"), []);
  }

  lemma MixedKeepsLiteral()
    ensures Filter(MixedList(), [Named("not-drupal/core")]) == [Named("not-drupal/core")]
  {
    assert Keeps(MixedList(), Named("not-drupal/core")) by {
      LiteralMatch("not-drupal/core", "not-drupal/core");
    }
    SurvivorsCons(MixedList(), Named("not-drupal/core"), []);
  }

  /**
   * An allow list that resolves to empty lets the items through unchanged:
   * `testEmptyAllowLists`.
   */
  method EmptyAllowLists() returns (result: seq<Item<()>>)
    ensures result == [Named("package1")]
  {
    var handler := AllowListHandler.CreateFromConfig(Config([]));
    result := handler.ApplyToItems([Named("package1")]);
  }

  /** A literal pattern keeps only the identical name: `testExactMatches`. */
  method ExactMatches() returns (fromFour: seq<Item<()>>, notCore: seq<Item<()>>)
    ensures fromFour == [Named("drupal/core")]
    ensures notCore == []
  {
    ExactListFilter();
    ExactListSingle();
    var handler := AllowListHandler.CreateFromConfig(Config(["drupal/core"]));
    fromFour := handler.ApplyToItems(FourPackages());
    notCore := handler.ApplyToItems([Named("drupal/not-core")]);
  }

  /** A trailing `*` keeps every name under the prefix: `testWildcardMatches`. */
  method WildcardMatches() returns (fromFour: seq<Item<()>>, notCore: seq<Item<()>>, notDrupal: seq<Item<()>>)
    ensures fromFour == [Named("drupal/core")]
    ensures notCore == [Named("drupal/not-core")]
    ensures notDrupal == []
  {
    WildcardListFilter();
    WildcardKeepsNotCore();
    WildcardDropsNotDrupal();
    var handler := AllowListHandler.CreateFromConfig(Config(["drupal/*"]));
    fromFour := handler.ApplyToItems(FourPackages());
    notCore := handler.ApplyToItems([Named("drupal/not-core")]);
    notDrupal := handler.ApplyToItems([Named("not-drupal/not-core")]);
  }

  /**
   * Several patterns: an item survives when any one matches, and survivors
   * keep their order: `testMixAndMatch`. With a logger attached, the three
   * dropped packages are logged in input order.
   */
  method MixAndMatch() returns (fromFive: seq<Item<()>>, messages: seq<string>)
    ensures fromFive == [Named("symfony/yaml"), Named("drupal/core")]
    ensures messages == [RemovalMessage("package1"), RemovalMessage("package2"), RemovalMessage("package3")]
  {
    MixedListFilter();
    var handler := AllowListHandler.CreateFromConfig(Config(MixedList()));
    var logger := new Logger();
    handler.SetLogger(logger);
    fromFive := handler.ApplyToItems(FivePackages());
    messages := logger.messages;
  }

  /**
   * PHP's `empty("0")` holds, so a package named "0" is dropped even by the
   * pattern `*`, and without a log message.
   */
  lemma ZeroNameDropped()
    ensures Filter(["*"], [Named("0")]) == []
    ensures RemovalLog(["*"], [Named("0")]) == []
  {
    SurvivorsCons(["*"], Named("0"), []);
  }

  /**
   * The single-item checks of `testMixAndMatch`: a name under `drupal/` and
   * the literal `not-drupal/core` pass, `not-drupal/not-core` does not.
   */
  method MixAndMatchSingles() returns (notCore: seq<Item<()>>, notDrupal: seq<Item<()>>, literal: seq<Item<()>>)
    ensures notCore == [Named("drupal/not-core")]
    ensures notDrupal == []
    ensures literal == [Named("not-drupal/core")]
  {
    MixedKeepsNotCore();
    MixedDropsNotDrupal();
    MixedKeepsLiteral();
    var handler := AllowListHandler.CreateFromConfig(Config(MixedList()));
    notCore := handler.ApplyToItems([Named("drupal/not-core")]);
    notDrupal := handler.ApplyToItems([Named("not-drupal/not-core")]);
    literal := handler.ApplyToItems([Named("not-drupal/core")]);
  }
}
