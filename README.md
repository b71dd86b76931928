# Allow-list handler, modelled in Dafny

The repository is one PHP class, `AllowListHandler`, used by a dependency-update
pipeline to decide which detected package updates may proceed. It holds a list
of shell glob patterns taken from the project's configuration. Its one
operation, `applyToItems`, takes a list of candidate items, each with an
optional `name`, and:

- returns the items unchanged when the pattern list is empty;
- otherwise drops every item whose name is empty in PHP's sense (absent, null,
  `""` or `"0"`), without logging;
- drops every named item that no pattern matches (patterns tried in order with
  `fnmatch`, stopping at the first match), and sends one info message
  `Removing <name> because it has no match in the allow list` to the logger, if
  one is set;
- re-indexes the survivors with `array_values`.

The model has four modules:

- `Fnmatch` (`fnmatch.dfy`): `GlobMatch`, the
  shell-pattern match `fnmatch` performs when called without flags, taken
  over characters rather than bytes (see "## Left out")
  (POSIX.1-2017, XCU section 2.13 "Pattern Matching Notation"). `*` matches
  any run of characters, including `/`. `?` matches one character. Every other
  character matches itself. The match is anchored at both ends. The lemmas
  give its reference semantics: a pattern is a concatenation of tokens, and a
  match is a split of the name into parts, one matched by each token.
- `AllowList` (`allow_list.dfy`) holds the data model and the class:
  - `Item<T>`: a name plus an untouched payload;
  - `Config`: the configuration, reduced to its materialised allow list;
  - the specification functions `Filter` and `RemovalLog`;
  - the classes `Logger` and `AllowListHandler`.

  `ApplyToItems` follows the source's loop. It goes over the items by index
  and unsets an entry of a PHP-style array (`map<nat, Item<T>>`) whenever the
  source calls `unset`. It calls `MatchesAllowList`, the inner pattern loop
  with its early exit. At the end it compacts the array with `ArrayValues`.
  It is proved to return `Filter(list, items)` and to append exactly
  `RemovalLog(list, items)` to the logger's messages.
- `AllowListProperties` (`allow_list_properties.dfy`): what the filter
  promises, proved of `Filter` and `RemovalLog`. These are identity on an
  empty list, soundness and completeness, order and multiplicity, a
  uniqueness theorem tying those together, idempotence, logging coverage and
  the accounting of every input item.
- `AllowListScenarios` (`allow_list_scenarios.dfy`): the repository's test
  cases (tests/ListHandlerTest.php) restated as client code through
  `CreateFromConfig` and `ApplyToItems`, with their expected results proved.

Behaviour of the code worth noting:

- `createFromConfig` (src/AllowListHandler.php:49-53) catches nothing, so
  `CreateFromConfig` only passes the configuration's list on to
  `CreateFromArray`.
- PHP's `empty()` is also true for `"0"`, so a package named `"0"` is
  dropped silently, whatever the patterns (`ZeroNameDropped`).
- The logger is a nullable field that `applyToItems` tests before logging
  (src/AllowListHandler.php:41), and the model does the same
  (`logger: Logger?`).

## Model

| member | source | states |
|---|---|---|
| `Fnmatch.StarSplit` | src/AllowListHandler.php:37 | a leading `*` matches a name exactly when the rest of the pattern matches some suffix of it, the whole name and the empty suffix included |
| `Fnmatch.StarMatchesAll` | src/AllowListHandler.php:37 | the pattern `*` matches every name, `/` included, because no FNM_PATHNAME flag is passed |
| `Fnmatch.GlobConcat` | src/AllowListHandler.php:37 | matching is compositional: `p1 + p2` matches a name exactly when the name splits into a part matching `p1` and a part matching `p2` (both directions) |
| `Fnmatch.GlobSingle` | src/AllowListHandler.php:37 | a one-character pattern matches exactly what its token matches: `*` everything, `?` any one character, any other character only itself |
| `Fnmatch.GlobTokens` | src/AllowListHandler.php:37 | reference semantics: `c` followed by `rest` matches a name exactly when a prefix of the name is matched by the token `c` and the remainder by `rest` |
| `Fnmatch.LiteralMatch` | src/AllowListHandler.php:37 | a pattern without `*` or `?` matches a name exactly when the two are equal, so matching is whole-string and case-sensitive |
| `Fnmatch.LiteralPrefixStar` | src/AllowListHandler.php:37 | a literal followed by `*` matches exactly the names that begin with that literal: anchored at the start, not a substring search |
| `Fnmatch.MatchLength` | src/AllowListHandler.php:37 | a matched name is at least as long as the pattern's non-`*` characters, and exactly that long when the pattern has no `*` |
| `AllowList.RemovalMessage` | src/AllowListHandler.php:42 | the logged message is 51 characters longer than the name and carries the name verbatim from offset 9 |
| `AllowList.PendingStep` | src/AllowListHandler.php:29-45 | one loop step leaves the PHP array as it was when the item is kept and unsets exactly that item's key otherwise |
| `AllowList.SurvivorsConcat` | src/AllowListHandler.php:29-46 | survivors of a concatenation are the survivors of each part, in order |
| `AllowList.RemovalMessagesConcat` | src/AllowListHandler.php:41-43 | messages for a concatenation are the messages for each part, in order |
| `AllowList.CompactedPending` | src/AllowListHandler.php:46 | `array_values` of the array the loop leaves behind is exactly the kept items in input order, re-indexed from 0 |
| `AllowList.Logger.Info` | src/AllowListHandler.php:41-43 | the logger appends the message to what it has recorded and changes nothing else |
| `AllowList.AllowListHandler.constructor` | src/AllowListHandler.php:19-22 | the handler stores the pattern list verbatim and starts without a logger |
| `AllowList.AllowListHandler.CreateFromArray` | src/AllowListHandler.php:55-58 | a fresh handler holding exactly the given list |
| `AllowList.AllowListHandler.CreateFromConfig` | src/AllowListHandler.php:49-53 | a fresh handler holding exactly the configuration's allow list, with no error fallback |
| `AllowList.AllowListHandler.SetLogger` | src/AllowListHandler.php:10 | `setLogger` from `LoggerAwareTrait` installs the given logger |
| `AllowList.AllowListHandler.MatchesAllowList` | src/AllowListHandler.php:36-40 | the inner loop, which stops at the first matching pattern, reports a match exactly when some pattern of the list matches the whole name |
| `AllowList.AllowListHandler.ApplyToItems` | src/AllowListHandler.php:24-47 | returns `Filter(list, items)`; when a logger is set, its messages afterwards are the old ones followed by `RemovalLog(list, items)`; the list and the logger field are unchanged |
| `AllowListProperties.EmptyListIsIdentity` | src/AllowListHandler.php:26-28 | with an empty list the result is the input exactly, nameless items included, and nothing is logged |
| `AllowListProperties.FilterMembership` | src/AllowListHandler.php:30-40 | soundness and completeness: with a non-empty list an item is in the result exactly when it is in the input, its name is non-empty, and some pattern matches that name |
| `AllowListProperties.FilterSubsequence` | src/AllowListHandler.php:29-46 | the result is a subsequence of the input: relative order is kept |
| `AllowListProperties.FilterCount` | src/AllowListHandler.php:29-46 | items are only kept or dropped: a kept item occurs in the result as often as in the input, any other item not at all |
| `AllowListProperties.FilterUnique` | src/AllowListHandler.php:29-46 | any subsequence of the input with those multiplicities equals the filter result, so order, soundness, completeness and multiplicity determine it |
| `AllowListProperties.FilterIdempotent` | src/AllowListHandler.php:29-46 | filtering the result again gives the same result and logs nothing |
| `AllowListProperties.FilterConcat` | src/AllowListHandler.php:29-46 | result and log of a concatenation are the results and logs of the parts, in input order |
| `AllowListProperties.FilterConservation` | src/AllowListHandler.php:29-45 | with a non-empty list every input item is kept, or logged once, or dropped silently for an empty name: the three counts add up to the input's length |
| `AllowListProperties.NamelessDroppedSilently` | src/AllowListHandler.php:30-34 | an item with an empty name (absent, null, `""`, `"0"`) is dropped by any non-empty list and produces no message |
| `AllowListProperties.RemovalMessageInjective` | src/AllowListHandler.php:42 | different names produce different messages |
| `AllowListProperties.LogCoverage` | src/AllowListHandler.php:41-44 | every logged message names an input item that has a name no pattern matches, and every such item is named in the log |
| `AllowListProperties.MatchedNeverLogged` | src/AllowListHandler.php:36-44 | for a name that some pattern matches, the log never contains the removal message for that name (other names' messages may contain it as a substring) |
| `AllowListProperties.ApplyTwice` | src/AllowListHandler.php:24-47 | applying one handler to its own result returns the same items, and a logger attached for the second pass receives nothing |
| `AllowListScenarios.ExactNameMatches` | tests/ListHandlerTest.php:55-59 | `drupal/core` matches `drupal/core` |
| `AllowListScenarios.ExactNameIsWhole` | tests/ListHandlerTest.php:60-65 | the literal `drupal/core` does not match `drupal/not-core` |
| `AllowListScenarios.PrefixStarMatches` | tests/ListHandlerTest.php:100-105 | `drupal/*` matches `drupal/not-core` |
| `AllowListScenarios.CoreUnderPrefix` | tests/ListHandlerTest.php:94-99 | `drupal/*` matches `drupal/core` |
| `AllowListScenarios.PrefixStarIsAnchored` | tests/ListHandlerTest.php:106-110 | `drupal/*` does not match `not-drupal/not-core` |
| `AllowListScenarios.TwoStarsMatch` | tests/ListHandlerTest.php:147-154 | `sy*/y*ml` matches `symfony/yaml` |
| `AllowListScenarios.ExactListFilter` | tests/ListHandlerTest.php:51-59 | the list `[drupal/core]` keeps only `drupal/core` out of the four packages |
| `AllowListScenarios.ExactListSingle` | tests/ListHandlerTest.php:60-65 | the list `[drupal/core]` drops `drupal/not-core` |
| `AllowListScenarios.WildcardListFilter` | tests/ListHandlerTest.php:91-99 | the list `[drupal/*]` keeps only `drupal/core` out of the four packages |
| `AllowListScenarios.WildcardKeepsNotCore` | tests/ListHandlerTest.php:100-105 | the list `[drupal/*]` keeps `drupal/not-core` |
| `AllowListScenarios.WildcardDropsNotDrupal` | tests/ListHandlerTest.php:106-110 | the list `[drupal/*]` drops `not-drupal/not-core` |
| `AllowListScenarios.MixedListFilter` | tests/ListHandlerTest.php:143-154 | the three-pattern list keeps `symfony/yaml` and `drupal/core` in that order, and logs the three `packageN` removals in input order |
| `AllowListScenarios.MixedKeepsNotCore` | tests/ListHandlerTest.php:155-160 | the three-pattern list keeps `drupal/not-core` |
| `AllowListScenarios.MixedDropsNotDrupal` | tests/ListHandlerTest.php:161-165 | the three-pattern list drops `not-drupal/not-core` |
| `AllowListScenarios.MixedKeepsLiteral` | tests/ListHandlerTest.php:166-170 | the three-pattern list keeps `not-drupal/core` |
| `AllowListScenarios.ZeroNameDropped` | src/AllowListHandler.php:30-34 | a package named `"0"` is dropped even by the pattern `*`, without a message |
| `AllowListScenarios.EmptyAllowLists` | tests/ListHandlerTest.php:15-26 | a handler built from a configuration with an empty allow list returns the items unchanged |
| `AllowListScenarios.ExactMatches` | tests/ListHandlerTest.php:28-66 | the exact-match test's two calls return `[drupal/core]` and `[]` |
| `AllowListScenarios.WildcardMatches` | tests/ListHandlerTest.php:68-111 | the wildcard test's three calls return `[drupal/core]`, `[drupal/not-core]` and `[]` |
| `AllowListScenarios.MixAndMatch` | tests/ListHandlerTest.php:113-154 | the mixed test's five-package call returns `[symfony/yaml, drupal/core]`, and an attached logger records the three removal messages in input order |
| `AllowListScenarios.MixAndMatchSingles` | tests/ListHandlerTest.php:155-170 | the mixed test's single-item calls return `[drupal/not-core]`, `[]` and `[not-drupal/core]` |

## Left out

- Bracket expressions (`[abc]`, ranges, `!`/`^` negation, character classes) and backslash escaping in patterns: `GlobMatch` treats `[`, `]` and `\` as ordinary characters. The libc `fnmatch` gives them special meaning, and its handling of malformed brackets, a trailing backslash and locale collation differs between platforms.
- FNM_* flags: the source passes none, so none are modelled.
- Names and patterns are modelled as sequences of characters, not as byte strings in the C locale: PHP's `?` consumes one byte, so it does not match a multi-byte UTF-8 character, while `GlobMatch` lets `?` match any one character. PHP's `fnmatch` returns false, with a warning, for a name or pattern of 4096 bytes or more, and raises an error for a NUL byte. Neither is modelled, so by `StarMatchesAll` the pattern `*` matches every name, even one past that limit.
- `Violinist\Config\Config`, `createFromComposerData` and `getAllowList` are an external library that is not part of this model. `Config` stands for the list `getAllowList` returns. Any exception it throws would propagate out of `createFromConfig`, and that path is not modelled.
- The `!is_array($this->list)` test on line 26 cannot fire, because the constructor is typed `array $list`. The model's list is always a sequence.
- Item names that are not strings (integers, arrays, `false`) are not modelled: `Item.name` is an optional string. PHP's `empty()` treats some of them (`0`, `false`, `[]`) as empty as well.
- Items are modelled as values. PHP passes its objects by handle, but `applyToItems` never writes to them, so nothing is lost.
- Input arrays with non-sequential or string keys are not modelled: the input is a sequence. With an empty list PHP would return such an array with its keys kept, and otherwise re-index it.
- The PSR logger is reduced to a sink that records info messages. Log levels other than info, context arrays and `LoggerAwareTrait` internals are not modelled. `sprintf` is modelled as concatenating the fixed text with the name.
- The JSON fixture files the empty-list test loads are file I/O. `EmptyAllowLists` stands for both variants, since each resolves to an empty allow list.
- `AllowList.ArrayValues`: its own contract states only a length bound. That the compaction yields exactly the kept items in order is stated by `CompactedPending` for the array the loop leaves behind, not for arbitrary arrays.
