# Verified model of Hex Fiend's range arithmetic, option parser and documentation scripts

Dafny models of the parts of Hex Fiend whose code is an algorithm or a protocol, with proofs.

- **Callback lists, Deferred and `when`** (the jQuery bundled with the documentation).
  `CallbackLists` holds the closure variables of one list and the operations on them; `CallbackRuns`
  all runs of a list; `PlainLists` the same told without positions, which every run is proved to show,
  and `CallbackContents` what follows for the callbacks; `Deferreds`, `DeferredTheorems`, `DeferredLists`
  and `DeferredNotices` the Deferred; `Whens`, `WhenWorld` and `WhenProgress` the joining of several.
  User callbacks are arbitrary: the fire loop is cut where foreign code runs, and a run is any sequence of
  operations, entries and returns that control allows. The theorems hold for every such sequence, so for
  every callback program, also one that adds, removes, fires, resolves or rejects from inside a pass, and
  also one that never stops.
  `CallbackObject`, `DeferredObject` and `WhenObject` perform the same steps in place.
- **64-bit arithmetic and ranges** (`HFFunctions.h`): `Words`, `Ranges`, `CommonMultiples`, `Digits`.
  Operations wrap modulo 2^64; a failing assertion is the result `None`. `NSUInteger` is taken to be
  64 bits wide.
- **The option parser** (`Tcl_ParseArgsObjv.c`): `OptionLookup`, `ParseArgs`, `ParseTheorems`.
- **The search page** (`search.js`): `DomWalk`, `SearchIds`.
- **Numbers with suffixes** (`AppUtilities.m`): `NumericSuffix`.
- **The diff layout** (`DiffTextViewContainer.m`): `DiffLayout`.

Points where code and documentation differ, or where the code does something unexpected; the model
follows the code.

- `HFIntersectionRange` promises {0, 0} for ranges with no common index, but returns {location, 0} for an
  empty range inside another (`Ranges.DisjointIntersection`).
- The option search's check on the second character makes an argument of one character match only a key
  of one character, and makes the empty argument an abbreviation of every such key
  (`OptionLookup.CandidateMeaning`).
- A FUNC handler may claim an argument that is not there; the count of remaining arguments is then -1
  and the loop ends (`ParseArgs.Turn`).
- The diff layout never tries its initial upper bound, so it misses the maximum when that bound fits
  (`DiffLayout.FoundIsLargest`; `DiffLayout.SearchCanMiss` gives such a layout).
- A suffix whose factor does not fit fails even for the numeral 0 (`NumericSuffix.ParseNumericString`,
  `NumericSuffix.SuffixesThatFit`, `NumericSuffix.ZeroOfZetta`), and numerals with a leading zero are
  read as octal (`NumericSuffix.LeadingZeroIsOctal`).
- `empty` called inside a pass makes the pass index past the list (`CallbackRuns.EmptyInPassOverruns`).

Inputs that come from outside are parameters: view widths (arbitrary real functions, monotone where
stated), `toLowerCase` (an arbitrary function except where the identifiers of rows are concerned: there
it lowers ASCII letters one by one in a text whose units beyond ASCII it leaves alone, and it leaves alone
those of a name it has lowered), Tcl's conversions and FUNC handlers (arbitrary, a handler may depend on
everything before it), the leading-zero count (by its definition), and whether `strtoull` reports an error
when there is no numeral. Trees of elements are finite and consistently linked.

## Model

| member | source | states |
|---|---|---|
| `DeferredTheorems.SettlesAtMostOnce` | docs/docs/jquery.js:16 | Deferred: once the state has left "pending", no continuation of any run, however re-entrant, changes it. |
| `DeferredTheorems.WinnerRunsEachCallbackOnce` | docs/docs/jquery.js:16 | In every run the first resolve or reject issued decides: the other side never runs a callback; the winning side runs its registered callbacks in registration order, each at most once and all with that call, and all of them by the time the outermost code has control, including those registered late; user code never sees a settled Deferred as pending. |
| `DeferredTheorems.FirstRequestSettles` | docs/docs/jquery.js:16 | The settlement of a run is the first resolve or reject that user code issued, and there is one as soon as one was issued. |
| `DeferredTheorems.LaterRequestsIgnored` | docs/docs/jquery.js:16 | After settlement, resolve, reject and notify leave the whole Deferred unchanged. |
| `DeferredTheorems.CalledNoMoreThanRegistered` | docs/docs/jquery.js:16 | A done and a fail callback registered once each are entered at most once between them. |
| `DeferredTheorems.StepKeeps` | docs/docs/jquery.js:16 | Every step of a Deferred keeps the coupling of its three lists, its state and its control stack. |
| `DeferredTheorems.UserSeesSettled` | docs/docs/jquery.js:16 | User code gets control of a settled Deferred only after all three of its own closures have run. |
| `DeferredTheorems.EnteredClosure` | docs/docs/jquery.js:16 | The first three callbacks of the winning list are the state, disable and lock closures, in that order; all later ones are the user's. |
| `DeferredLists.ListsAreCallbackLists` | docs/docs/jquery.js:16 | Each list inside a Deferred takes part in a run of an ordinary callback list, so the results on callback lists hold inside a Deferred. |
| `DeferredLists.NotificationsServedInOrder` | docs/docs/jquery.js:16 | Notifications are served in the order issued; until settlement none is lost, and all were served once no progress pass runs. |
| `Deferreds.StepKeepsWf` | docs/docs/jquery.js:16 | Every action keeps the lists valid and the control stack naming exactly the firing lists, each once. |
| `DeferredObject.DeferredCell.constructor` | docs/docs/jquery.js:16 | Creation: a pending Deferred with its closures first on the done and fail lists. |
| `DeferredObject.DeferredCell.Add` | docs/docs/jquery.js:16 | `done`, `fail` and `progress` on the three list objects. |
| `DeferredObject.DeferredCell.Fire` | docs/docs/jquery.js:16 | `resolveWith`, `rejectWith` and `notifyWith` on the three list objects. |
| `DeferredObject.DeferredCell.TestInnermost` | docs/docs/jquery.js:16 | One test of the innermost fire loop of a Deferred. |
| `DeferredObject.DeferredCell.RunOwnClosure` | docs/docs/jquery.js:16 | The closures that set the state, disable the other list and lock the progress list. |
| `DeferredObject.DeferredCell.ReturnToLoop` | docs/docs/jquery.js:16 | A callback of a Deferred returning to the loop that called it. |
| `CallbackRuns.PassNeitherSkipsNorRepeats` | docs/docs/jquery.js:16 | At every moment of every run: the entries a pass has skipped at its start or called are distinct and in registration order, those still listed are exactly the list below the loop position, and nothing above it was touched; the loop length is the list length. |
| `CallbackRuns.FinishedPassCalledEverySurvivor` | docs/docs/jquery.js:16 | A pass that runs to its end has called, once and in order, every entry still listed that it did not start behind. |
| `CallbackRuns.FiresServedInOrder` | docs/docs/jquery.js:16 | On lists without `once`, requests made during a pass are begun afterwards in the order issued; none is lost while the list is not locked; callbacks receive the call begun last. |
| `CallbackRuns.StepKeepsValid` | docs/docs/jquery.js:16 | Every operation and loop step keeps a valid list; a pass begins only where none is running (the precondition of BeginPass), so passes of one list never nest. |
| `CallbackRuns.StepKeepsPass` | docs/docs/jquery.js:16 | Every operation and loop step keeps the pass invariant. |
| `CallbackRuns.OnceFiresOnce` | docs/docs/jquery.js:16 | A `once` list begins at most one requested pass in any run. |
| `CallbackRuns.SilentForEver` | docs/docs/jquery.js:16 | A list that is not running, not accepting requests and remembers no call never calls anything again, whatever follows. |
| `CallbackRuns.WhatSilences` | docs/docs/jquery.js:16 | Disabling, locking before the first fire, and the end of a `once` pass without memory leave such a list. |
| `CallbackRuns.StoppedPassIsOver` | docs/docs/jquery.js:16 | `stopOnFalse`: after a false return the pass is over and later adds replay nothing. |
| `CallbackRuns.EmptyInPassOverruns` | docs/docs/jquery.js:16 | `empty` inside a pass makes the loop index past the list exactly when the running callback is not the last one. |
| `CallbackRuns.RemoveMeaning` | docs/docs/jquery.js:16 | `remove` leaves exactly the entries whose function was not named, in order; during a pass the part entered and the part to come are filtered alike, so the loop goes on with the entry it would have called next. |
| `PlainLists.RunIsPlain` | docs/docs/jquery.js:16 | In every run and for all flags, the list with its indexes, loop length, splicing and memory shows exactly what a list without positions does: functions behind and ahead of the pass, waiting calls, the call to replay. |
| `CallbackContents.ContentsFollowActions` | docs/docs/jquery.js:16 | After every run the functions held are those added and not removed or emptied since, in order, on a `unique` list without repeats; only a finished `once` pass clears them, and without `once` only disabling or locking gives the list up. |
| `CallbackContents.FinishedPassReachedAll` | docs/docs/jquery.js:16 | A pass that runs to its end has called, in order, every function then held that it did not start behind. |
| `CallbackContents.AddReplays` | docs/docs/jquery.js:16 | A list with `memory`, also when locked: functions added while nothing runs are called at once with the last call begun, they alone; before the first call they wait; during a pass they join it. |
| `DeferredNotices.NotificationReachesAll` | docs/docs/jquery.js:16 | At the end of every progress pass, each progress callback registered by then, behind those the pass started behind, was called once, in order, with the notification served last. |
| `DeferredNotices.NotificationStartsAfresh` | docs/docs/jquery.js:16 | A pass begun by a request starts at the first entry, with nothing skipped or called. |
| `DeferredNotices.LateProgressReplays` | docs/docs/jquery.js:16 | A progress callback registered between passes, before or after settlement, receives the last notification at once, and earlier ones do not receive it again; before the first notification it waits. |
| `CallbackLemmas.RemoveEachSplits` | docs/docs/jquery.js:16 | Removing functions filters the part a pass has entered and the part to come separately and leaves the loop position between them. |
| `CallbackLemmas.PushAppends` | docs/docs/jquery.js:16 | Adding appends: the old list is a prefix, new entries are newer, `unique` lists stay free of duplicates, other lists take every function in order. |
| `CallbackLemmas.PushHolds` | docs/docs/jquery.js:16 | After adding, the list holds a function exactly if it did before or was asked to. |
| `CallbackObject.Callbacks.AddArguments` | docs/docs/jquery.js:16 | The recursive adder over nested arrays, in place. |
| `CallbackObject.FlattenConcat` | docs/docs/jquery.js:16 | Flattening keeps the order of the arguments. |
| `CallbackObject.FlattenLeaves` | docs/docs/jquery.js:16 | A nested array counts as the arguments it holds, a function as itself, anything else as nothing. |
| `CallbackObject.Callbacks.HasFunction` | docs/docs/jquery.js:16 | `has`: whether the list holds the function. |
| `CallbackObject.Callbacks.Add` | docs/docs/jquery.js:16 | `add`, with the immediate replay on lists that remember a call. |
| `CallbackObject.Callbacks.Remove` | docs/docs/jquery.js:16 | `remove`, with its two loops, splicing and adjusting a running pass in place. |
| `CallbackObject.Callbacks.Disable` | docs/docs/jquery.js:16 | `disable` forgets list, stack and memory. |
| `CallbackObject.Callbacks.Lock` | docs/docs/jquery.js:16 | `lock` drops the queue, and disables a list that has not fired. |
| `CallbackObject.Callbacks.Empty` | docs/docs/jquery.js:16 | `empty` replaces the list. |
| `CallbackObject.Callbacks.FireWith` | docs/docs/jquery.js:16 | `fireWith`: begin a pass, queue the call, or ignore it. |
| `CallbackObject.Callbacks.Begin` | docs/docs/jquery.js:16 | The head of the fire function. |
| `CallbackObject.Callbacks.Invoke` | docs/docs/jquery.js:16 | One test of the fire loop: enter the next callback or end the pass. |
| `CallbackObject.Callbacks.Return` | docs/docs/jquery.js:16 | A callback comes back to the fire loop. |
| `CallbackObject.Callbacks.End` | docs/docs/jquery.js:16 | The tail of the fire function: next queued call, or the `once` rule. |
| `WhenWorld.WhenEndToEnd` | docs/docs/jquery.js:16 | `when` over real Deferreds: it resolves only if every input's Deferred has resolved, with slot i the array of several resolve arguments, the only one, or undefined for none; it rejects only with the call that rejected an input; once the loop is over and the inputs are quiet it resolves if all did and rejects if one did. |
| `WhenWorld.OwnerEventEnabled` | docs/docs/jquery.js:16 | The closures of `when` on an input are entered at most once and only after registration: the assumption of the counter argument always holds. |
| `WhenWorld.MoveKeeps` | docs/docs/jquery.js:16 | Every move of the loop, an input's Deferred or the master keeps the inputs and the books of `when` in agreement. |
| `Whens.WhenWaitsForAll` | docs/docs/jquery.js:16 | The counter reaches zero exactly when every input has its value; the master then resolves with the values, otherwise it rejects with the first refusal; its own trace is a run of a Deferred, so the second resolveWith is harmless. |
| `Whens.BalancedStep` | docs/docs/jquery.js:16 | Every event keeps the counter equal to the number of missing inputs and every slot right. |
| `Whens.AgreeStep` | docs/docs/jquery.js:16 | Every event keeps the books and the master's settlement in agreement. |
| `WhenProgress.OwnerTells` | docs/docs/jquery.js:16 | When an input's Deferred enters a closure of `when`: slot i becomes the array of several arguments, the only one, or undefined; the counter falls; the master is resolved at zero, rejected with the call, or notified with the slots. |
| `WhenProgress.SlotsShowOwners` | docs/docs/jquery.js:16 | In every run each progress slot shows the arguments of its input's last notification, and undefined before the first. |
| `WhenProgress.PromiseServesUsers` | docs/docs/jquery.js:16 | Until the master settles every notification of an input was forwarded or waits, in order; when it has settled, exactly the functions users registered on the winning side were called, in order, with its call. |
| `WhenObject.WhenCell.constructor` | docs/docs/jquery.js:16 | The counter, the copied arguments and the fresh master of `when`. |
| `WhenObject.WhenCell.ExamineNext` | docs/docs/jquery.js:16 | One turn of the argument loop. |
| `WhenObject.WhenCell.Close` | docs/docs/jquery.js:16 | The test of the counter after the loop. |
| `WhenObject.WhenCell.OnDone` | docs/docs/jquery.js:16 | The done closure of an input: store the arguments as they must come, count down, resolve at zero. |
| `WhenObject.WhenCell.OnFail` | docs/docs/jquery.js:16 | The fail callback of an input rejects the master. |
| `WhenObject.WhenCell.OnProgress` | docs/docs/jquery.js:16 | The progress closure of an input notifies the master with the array. |
| `ParseArgs.ParseArgsObjv` | app/sources/Tcl_ParseArgsObjv.c:50-294 | The in-place parser equals the recursive specification Parse: on success the leftovers are the name, the unrecognized arguments and the rest, NULL-terminated, with their count; on error, or with nothing kept, count and pointer are unchanged. |
| `ParseArgs.Turn` | app/sources/Tcl_ParseArgsObjv.c:108-254 | One turn of the argument loop is one step of Parse; the indexes account for every argument, every write fits, and the count of remaining arguments falls, to -1 at the lowest. |
| `ParseArgs.TakeOption` | app/sources/Tcl_ParseArgsObjv.c:166-254 | A recognized option acts as Act says and moves past the next argument exactly when it took it. |
| `ParseArgs.TakeAction` | app/sources/Tcl_ParseArgsObjv.c:168-253 | The switch on the option type, with its writes, failures and handler call. |
| `ParseArgs.KeepArgument` | app/sources/Tcl_ParseArgsObjv.c:157-159 | An unrecognized argument is appended to the leftovers. |
| `ParseArgs.Finish` | app/sources/Tcl_ParseArgsObjv.c:272-278 | The rest is copied behind the leftovers, terminated by NULL, and the buffer shrunk. |
| `ParseTheorems.EveryArgumentAccountedFor` | app/sources/Tcl_ParseArgsObjv.c:108-276 | Every argument of a successful parse has one role: leftovers are the unrecognized ones in original order, the rest is what follows the REST option, all others are keywords or the values right behind them. |
| `ParseTheorems.EffectsAreCaused` | app/sources/Tcl_ParseArgsObjv.c:168-247 | Whatever the outcome, the writes and handler calls are those of the arguments taken as keywords, in the order of the arguments and one for each, except none for a REST without a target; each goes to its option's slot and carries its constant or the conversion of the argument right behind the keyword. |
| `ParseTheorems.ValueMeaning` | app/sources/Tcl_ParseArgsObjv.c:168-226 | In every parse, a keyword of an INT, STRING or FLOAT row has the argument behind it as its value, one of a CONSTANT or REST row has none. |
| `ParseTheorems.HandlersDecide` | app/sources/Tcl_ParseArgsObjv.c:227-241 | A FUNC keyword has a value exactly when an argument was there and its handler, told all the effects so far, accepted it. |
| `ParseTheorems.RoleMeaning` | app/sources/Tcl_ParseArgsObjv.c:145-253 | Every argument looked up is rejected exactly when it is ambiguous, unrecognized with nothing kept, a help request, of a bad type, or an option whose value is missing or does not convert; it is a leftover exactly when unrecognized and kept. |
| `ParseTheorems.FailureMeaning` | app/sources/Tcl_ParseArgsObjv.c:108-254 | A parse fails exactly when it looks up such an argument. |
| `ParseTheorems.RestEndsOptions` | app/sources/Tcl_ParseArgsObjv.c:195-204 | A REST keyword, wherever it stands, ends the options: the parse succeeds, the rest is exactly what follows the keyword, possibly nothing, and the last effect stores the index where the rest begins. |
| `ParseTheorems.RestIndexPoints` | app/sources/Tcl_ParseArgsObjv.c:195-204 | A rest that is not empty was left by a REST option, and from the index that option stores on, the arguments handed back are the rest. |
| `ParseTheorems.ReparseIsIdentity` | app/sources/Tcl_ParseArgsObjv.c:145-160 | Parsing the unrecognized leftovers again returns them unchanged and writes nothing. |
| `OptionLookup.FindOption` | app/sources/Tcl_ParseArgsObjv.c:119-144 | The table search loop equals the specification Lookup. |
| `OptionLookup.LookupMeaning` | app/sources/Tcl_ParseArgsObjv.c:119-161 | An exact key wins unless two rows matched before it; a sole match is accepted; an argument is ambiguous exactly when two rows match with no exact key up to the second; it is unrecognized exactly when none matches. |
| `OptionLookup.LookupByPrefixes` | app/sources/Tcl_ParseArgsObjv.c:119-161 | The same for arguments of two or more characters in terms of prefixes of the keys. |
| `OptionLookup.CandidateMeaning` | app/sources/Tcl_ParseArgsObjv.c:113-137 | The quick check on the second character rejects no key that an argument of two or more characters abbreviates; one character must be the whole key; the empty argument matches every one-character key. |
| `DomWalk.FindChildElement` | docs/docs/search/search.js:412-446 | The firstChild, nextSibling, parentNode walk terminates and returns what the recursive search returns. |
| `DomWalk.SearchIsFirst` | docs/docs/search/search.js:412-446 | The recursive search returns the first SRChildren DIV of the preorder that enters DIVs only. |
| `DomWalk.FirstIsEarliest` | docs/docs/search/search.js:419-422 | The result is the earliest such element, and null exactly when there is none. |
| `SearchIds.ConvertToId` | docs/docs/search/search.js:1-22 | The encoding loop computes Encode. |
| `SearchIds.CodeShape` | docs/docs/search/search.js:6-19 | A small letter, a digit or a unit from 0x80 on becomes itself, any other an underscore and the two hexadecimal digits of its number. |
| `SearchIds.EncodedPrefix` | docs/docs/search/search.js:1-22 | The encoding of p is a prefix of the encoding of t exactly when p is a prefix of t. |
| `SearchIds.EncodeInjective` | docs/docs/search/search.js:1-22 | Different texts have different identifiers. |
| `SearchIds.SearchResults.Search` | docs/docs/search/search.js:469-519 | For a text typed between any spaces, and with nothing typed for the address likewise, the result row built for a name is displayed exactly when the lowered name starts with the lowered text; other rows are untouched, lastMatchCount is the number displayed, and NoMatches shows when it is zero. |
| `SearchIds.SearchResults.JudgeRows` | docs/docs/search/search.js:483-507 | The row loop judges every row and counts the matches. |
| `SearchIds.StripMeaning` | docs/docs/search/search.js:478-479 | Stripping takes spaces off both ends, all of them and nothing else. |
| `SearchIds.StripIs` | docs/docs/search/search.js:478-479 | A trimmed text between spaces is what stripping gives. |
| `SearchIds.RowPrefixStripped` | docs/docs/search/search.js:492-493 | A prefix of sr, digits and an underscore is removed, and nothing behind it. |
| `SearchIds.RowPrefixOnly` | docs/docs/search/search.js:492-493 | An identifier without such a prefix is left as it is. |
| `SearchIds.SearchResults.Judge` | docs/docs/search/search.js:489-505 | The verdict on one row. |
| `SearchIds.RowShownIffNameStarts` | docs/docs/search/search.js:478-505 | The row built for a name, with identifier SR_ and the code of the lowered name, is shown exactly when the lowered name starts with the trimmed, lowered query. |
| `SearchIds.RowShownByLoweredId` | docs/docs/search/search.js:489-505 | A row is shown exactly when the name starts with the query, whatever its identifier, as long as that lowers to sr_ and the code of the lowered name. |
| `SearchIds.RowIdLowered` | docs/docs/search/search.js:489-493 | Lowering the identifier built for a name changes its prefix only. |
| `SearchIds.EncodeUnits` | docs/docs/search/search.js:1-22 | The code holds no ASCII capital, and beyond ASCII only units of the text. |
| `Ranges.SumComparisonExact` | framework/sources/HFFunctions.h:247-272 | Both forms of HFSumIsLargerThanSum decide the comparison of the true sums on all inputs, without overflow on the way. |
| `Ranges.AndXorSum` | framework/sources/HFFunctions.h:264-267 | A sum is twice the common bits plus the differing bits. |
| `Ranges.IntersectionExact` | framework/sources/HFFunctions.h:285-295 | The intersection holds exactly the shared indexes, also when ends pass 2^64, and is nonempty exactly when the ranges intersect. |
| `Ranges.DisjointIntersection` | framework/sources/HFFunctions.h:285-295 | With no shared index the result is {0, 0} exactly unless one range is empty inside the other away from location 0, and then it is that range; {5, 0} and {0, 10} give {5, 0}. |
| `Ranges.IntersectsMeansShared` | framework/sources/HFFunctions.h:213-223 | HFIntersectsRange holds exactly when some index is in both ranges. |
| `Ranges.SubrangeOrder` | framework/sources/HFFunctions.h:194-201 | HFRangeIsSubrangeOfRange is a partial order. |
| `Ranges.SubrangeIsInclusion` | framework/sources/HFFunctions.h:193-201 | For every nonempty range it is inclusion of indexes, also when ends reach or pass 2^64; an empty range is a subrange exactly from the other's start to its end, both included. |
| `Ranges.SubrangeIsWordInclusion` | framework/sources/HFFunctions.h:194-201 | Over the indexes a word can hold it is still inclusion when the range ends at 2^64 or before; a range that reaches further is included there exactly when the other starts no later and reaches 2^64. |
| `Ranges.SplitAboutSubrange` | framework/sources/HFFunctions.h:203-211 | Prefix and suffix about a subrange; the assertions pass exactly for a subrange of a range that fits. |
| `Ranges.UnionExact` | framework/sources/HFFunctions.h:235-244 | The assertions pass exactly for fitting ranges that intersect or touch, and the union then holds exactly the indexes of both. |
| `Ranges.SplitRebuilds` | framework/sources/HFFunctions.h:203-244 | Uniting prefix, subrange and suffix gives the range back. |
| `Ranges.SplitPartitions` | framework/sources/HFFunctions.h:203-211 | Every index of a split range is in exactly one part. |
| `Words.SumTestExact` | framework/sources/HFFunctions.h:57-62 | The wrapped comparison decides overflow of a sum. |
| `Words.ProductTestExact` | framework/sources/HFFunctions.h:64-80 | The divide-back tests decide overflow of a product, in both argument orders. |
| `Words.RoundUpLeast` | framework/sources/HFFunctions.h:138-146 | Rounding up gives the least multiple at or above a, equal to b times the rounded-up quotient, or fails exactly when that does not fit. |
| `Words.NextMultipleLeast` | framework/sources/HFFunctions.h:178-186 | The saturating form gives the least multiple strictly above a, or ULLONG_MAX exactly when that does not fit. |
| `CommonMultiples.LeastCommonMultiple` | framework/sources/HFFunctions.h:158-175 | Euclid's loop and the checked product give the least common multiple, or fail exactly for a zero argument or overflow. |
| `CommonMultiples.LcmIsLeast` | framework/sources/HFFunctions.h:158-175 | That number is positive, a multiple of both arguments, and divides every common multiple. |
| `CommonMultiples.GcdDivides` | framework/sources/HFFunctions.h:165-171 | Euclid's result divides both arguments. |
| `CommonMultiples.GcdIsGreatest` | framework/sources/HFFunctions.h:165-171 | Every common divisor divides Euclid's result. |
| `Digits.CountDigitsBase10` | framework/sources/HFFunctions.h:409-423 | The binary search returns the length of the decimal numeral. |
| `Digits.CountDigitsBase16Exact` | framework/sources/HFFunctions.h:425-434 | The leading-zero formula gives the length of the hexadecimal numeral. |
| `Digits.DigitCountUnique` | framework/sources/HFFunctions.h:409-434 | A number has one digit count in a base. |
| `NumericSuffix.ParseNumericString` | app/sources/AppUtilities.m:58-92 | On every string the word arithmetic succeeds exactly when the text is well formed and numeral, factor and product all fit 64 bits, and then returns the exact product and the sign. |
| `NumericSuffix.ParseSuffixMultiplier` | app/sources/AppUtilities.m:11-56 | The suffix parser returns the true factor when it fits 64 bits and fails otherwise. |
| `NumericSuffix.SearchTable` | app/sources/AppUtilities.m:31-42 | The table loop with its wrapped product and sticky overflow flag finds the true power or reports overflow. |
| `NumericSuffix.TrimSuffix` | app/sources/AppUtilities.m:14-19 | Spaces trimmed at both ends, then at most one trailing b dropped. |
| `NumericSuffix.CoreMeaning` | app/sources/AppUtilities.m:14-24 | Spaces around a suffix and one b or B behind it do not matter, also when nothing else is there. |
| `NumericSuffix.BytesCountOnce` | app/sources/AppUtilities.m:20-24 | Spaces, or a b between spaces, stand for the factor 1. |
| `NumericSuffix.MultiplierTable` | app/sources/AppUtilities.m:21-55 | A suffix has a factor exactly when its core is empty or, case ignored, one of the sixteen, and then the power of its position. |
| `NumericSuffix.CaseDoesNotMatter` | app/sources/AppUtilities.m:27-54 | Each suffix is known in every mixture of capitals and small letters. |
| `NumericSuffix.SuffixesThatFit` | app/sources/AppUtilities.m:27-54 | Six of each eight suffixes have factors that fit; zetta and yotta, zebi and yobi do not. |
| `NumericSuffix.DecimalMeaning` | app/sources/AppUtilities.m:58-92 | Writing a number in decimal, with an optional minus sign and a suffix, and parsing it gives the number, the factor and the sign back. |
| `NumericSuffix.ScanWritten` | app/sources/AppUtilities.m:79-79 | Reading the numeral of n in a base gives n. |
| `NumericSuffix.OctalBehindZero` | app/sources/AppUtilities.m:79-79 | Behind a zero a numeral is read as octal. |
| `NumericSuffix.HexadecimalBehindMark` | app/sources/AppUtilities.m:79-79 | Behind 0x or 0X a numeral is read as hexadecimal. |
| `NumericSuffix.SignsMeaning` | app/sources/AppUtilities.m:68-77 | White space is skipped before and behind one minus sign; a second minus sign is an error. |
| `NumericSuffix.LeadingZeroIsOctal` | app/sources/AppUtilities.m:58-92 | "010" is eight, and "08" is refused, for it is a zero followed by a meaningless suffix. |
| `NumericSuffix.ZeroOfZetta` | app/sources/AppUtilities.m:58-92 | "0z" means zero, but its factor alone does not fit a word. |
| `DiffLayout.LayoutWidths` | app/sources/DiffTextViewContainer.m:18-49 | The bytes per line are a positive multiple of every representer's granularity and fit a word; the widths handed back are those for it, and with more than one granule they and the distance sum to at most the view's width; more bytes, below the bound, would not fit. |
| `DiffLayout.MostGranules` | app/sources/DiffTextViewContainer.m:33-44 | The binary search ends with the most granules that fit below its bound, or one; no product overflows. |
| `DiffLayout.FoundIsLargest` | app/sources/DiffTextViewContainer.m:33-44 | That is the largest count that fits a word exactly when the bound, which is never tried, does not fit (or is at most one). |
| `DiffLayout.SearchCanMiss` | app/sources/DiffTextViewContainer.m:33-44 | With two views that need no width and granules of 16 bytes the bound fits, the search ends one granule below it, and the answer is not the largest. |
| `DiffLayout.Granularity` | app/sources/DiffTextViewContainer.m:24-31 | The two loops fold the granularities with the least common multiple. |
| `DiffLayout.FoldIsLeast` | app/sources/DiffTextViewContainer.m:24-31 | The folded granularity is a multiple of all and divides every common multiple. |

## Left out

- `Callbacks.empty` during a pass and callbacks that throw: both break a pass in this code; `empty` is modelled outside passes.
- `pipe`, `then` and `always`: the last two are sequences of the modelled registrations; `pipe` forwards between two Deferreds through ordinary callbacks, which the runs include as user code.
- `when` with one argument or none: it returns the argument's own promise or an already resolved one.
- Whens.WhenWaitsForAll: takes from its environment that an input settles once; `WhenWorld` proves it for inputs that are Deferreds, and other objects with a `promise` method are not covered.
- WhenWorld.WhenEndToEnd: lets the inputs' Deferreds act in any interleaving instead of one global call stack, which only adds runs.
- WhenObject.WhenCell.OnProgress: hands the master a snapshot of the progress values, as do the events of `Whens`; the source passes its live array, so a queued or replayed notification there may show values stored later. No result depends on the arguments of a notification.
- WhenObject.WhenCell.ExamineNext: keeps the books of the loop only; that the turn also registers the closures on the input's own Deferred is modelled in `WhenWorld`, whose moves do both.
- ParseArgs.ParseArgsObjv: GENFUNC options, whose handlers may set the remaining count to anything, are not part of the model; neither are error messages and the usage text.
- SearchIds.SearchResults.Search: the query of the page's address arrives already unescaped.
- NumericSuffix.ParseNumericString: works on the bytes of the string; the conversion of the string object to UTF-8 and its failure are not modelled.
- DiffLayout.LayoutWidths: widths are real numbers, so floating-point rounding of the sums is not modelled.
- Floating-point ranges, atomics and the conversions between integer and floating-point types in HFFunctions.h: platform arithmetic.
- HFRangeSet, organizeAndMergeRanges, the byte arrays, the B-tree, edit scripts and undo: their bodies are not part of this model.
- The rest of jquery.js and search.js (DOM, ajax, animation, keyboard navigation) and the helper process: user interface and input/output.
