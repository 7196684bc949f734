# Recipe recommender and web client state, modelled in Dafny

This project models the core of a recipe-sharing service with two parts.

- **The recommender (Python).** It scores every recipe of a corpus against the recipes a user liked. Each score is a weighted average of per-field similarities: name, ingredients, cooking method ("major"), dish type ("minor") and, for cocktails, alcohol by volume. The recipes are then ranked by score. A trainer nudges the five weights by replaying held-out likes from a test table.
- **The web client's state (TypeScript).** This covers three Redux slices (user, modal dialogs, tokens) and the signup validators. It also covers two formatting helpers: `formatTime` and the two-digit padding of date fields.

Modules, one per source file, plus two shared ones:

| module | file | models |
|---|---|---|
| `Wrappers`, `Text` | wrappers.dfy, text.dfy | `Option`/`Result`, character classes, first/last index |
| `Features` | features.dfy | ingredient extraction, corpus rows, the name-to-id table |
| `Scoring` | scoring.dfy | per-pair similarities, averages, banker's rounding, the stable descending sort, `recommend`, `recommend_recipe` |
| `Training` | training.dfy | the top-2/bottom-2 nudges, the score band, `train_weight` and `save_weights` |
| `UserReducer` | user_reducer.dfy | the `user` slice as a class whose methods update its fields |
| `ModalReducer` | modal_reducer.dfy | the `modal` slice as a class |
| `TokenReducer` | token_reducer.dfy | the `token` slice as a class, with the two thunks and their reducer cases |
| `Validation` | selector.dfy | the signup format validator and the password-match selector |
| `Commons` | common.dfy | `formatTime` and `("0" + n).slice(-2)` |

Where the Python code loops and updates variables, the model has a method with a loop. That method is proved equal to a specification function, and the properties are proved as lemmas about that function. This applies to `extract_ingredients`, the fetch loop, both loops of `recommend`, the nudge loops and the epoch and row loops of `train_weight`. Each Redux slice is a class, and each reducer is a method that states the slice's complete new state.

The cosine similarities of the vectorizers are parameters. So are the scaler of the abv column, the random draw of the held-out like, and the rows the train/test split picks. Floating point is modelled as exact `real` arithmetic.

## Model

| member | source | states |
|---|---|---|
| Commons.FormatTime | front/src/util/Common.tsx:31-35 | the minutes field is `String(Math.floor(s/60))` followed by `:`; for `s >= 0` there is exactly one colon and reading the text back gives `s` |
| Commons.FormatTimeParses | front/src/util/Common.tsx:31-35 | for a non-negative count the text splits at its only colon into the minute digits and a two-digit seconds field below 60 that together denote the count |
| Commons.MinutesAreFloor | front/src/util/Common.tsx:32 | the minutes are the floor of `s/60`: `m*60 <= s < m*60 + 60`, negative counts included |
| Commons.JsRem | front/src/util/Common.tsx:33 | JavaScript's `%`: dividend = 60 × truncated quotient + remainder, and the remainder takes the dividend's sign |
| Commons.FormatTimeSecondsArePadded | front/src/util/Common.tsx:31-35 | for `s >= 0` the seconds field equals the two-digit padding of `s % 60`, so `formatTime` and the date padding agree |
| Commons.PadTwo | front/src/util/Common.tsx:17-20 | the padded field always has two characters; for `n >= 0` they are digits denoting `n % 100`, with a leading "0" below 10 |
| Commons.PadTwoIsTwoDigitDecimal | front/src/util/Common.tsx:27-28 | for `0 <= n <= 99` the field is exactly the tens digit followed by the units digit |
| Commons.DecimalRoundTrip | front/src/util/Common.tsx:34 | reading back the digits `String(n)` writes gives `n` |
| Validation.EmailFormat | front/src/context/recoil/Selector.tsx:26 | the deterministic test accepts exactly the strings with some split `local@domain.tld` that the pattern's three runs admit |
| Validation.PhoneFormat | front/src/context/recoil/Selector.tsx:28 | the language of `^\d{10,11}$`: 10 or 11 characters, all ASCII digits |
| Validation.NicknameFormat | front/src/context/recoil/Selector.tsx:30 | the language of `^[a-zA-Z0-9가-힣]{2,16}$`: 2 to 16 characters, each an ASCII letter or digit or a Hangul syllable |
| Validation.EmailSplitUnique | front/src/context/recoil/Selector.tsx:26 | any split the pattern admits uses the first `@` and the last `.` |
| Validation.Validate | front/src/context/recoil/Selector.tsx:18-72 | the value is echoed; an empty value gives both flags false and no message; the format flag holds iff the value is non-empty, passes its field's pattern and the lookup answered; the duplicate flag iff additionally the answer was falsy; a value failing its pattern gets the field's format message |
| Validation.FormatFailureIgnoresLookup | front/src/context/recoil/Selector.tsx:49-56 | when the pattern rejects a non-empty value, the result does not depend on the duplicate lookup |
| Validation.PasswordPattern | front/src/context/recoil/Selector.tsx:83 | the language of the password pattern: 8 to 25 UTF-16 units, no line terminator, and a letter, a symbol from `!@#$%^*+=-` and a digit somewhere |
| Validation.PasswordMatchAsWritten | front/src/context/recoil/Selector.tsx:78-91 | the selector as written reports a bad format exactly when the password MATCHES the pattern, and otherwise compares the two entries |
| Validation.PasswordCheckIsInverted | front/src/context/recoil/Selector.tsx:83-86 | a password of the required form ("abcd123!") is reported as badly formed, and the one-letter password "a" as well formed and matching its confirmation |
| Validation.PasswordMatch | front/src/context/recoil/Selector.tsx:78-91 | the corrected selector: bad format exactly when the pattern rejects the password; otherwise `isDuplicate` is whether the two entries are equal |
| Validation.PasswordVerdictsDisagree | front/src/context/recoil/Selector.tsx:83-89 | for every password the written and corrected selectors give opposite format verdicts |
| UserReducer.Toggle | front/src/context/redux/UserReducer.tsx:44-59 | the toggled id's membership flips and every other id keeps its membership |
| UserReducer.ToggleTwice | front/src/context/redux/UserReducer.tsx:44-59 | toggling one id twice restores the set |
| UserReducer.UserSlice.constructor | front/src/context/redux/UserReducer.tsx:6-14 | the initial slice: no id, empty strings and sets, not a guest, an administrator |
| UserReducer.UserSlice.SetUserInfo | front/src/context/redux/UserReducer.tsx:20-34 | identity from the payload, not a guest, admin iff role is `ROLE_ADMIN`, each recipe set replaced only when the payload has that list |
| UserReducer.UserSlice.SetGuest | front/src/context/redux/UserReducer.tsx:35-43 | the signed-out state: a guest with no id, no admin flag, empty sets |
| UserReducer.UserSlice.ToggleLikeRecipe | front/src/context/redux/UserReducer.tsx:44-51 | liked set toggled at the id; every other field unchanged |
| UserReducer.UserSlice.ToggleReportRecipe | front/src/context/redux/UserReducer.tsx:52-59 | reported set toggled at the id; every other field unchanged |
| UserReducer.UserSlice.Logout | front/src/context/redux/UserReducer.tsx:62-70 | the same signed-out state as `setGuest` |
| UserReducer.ToggleLikeTwice | front/src/context/redux/UserReducer.tsx:44-51 | liking the same recipe twice leaves the whole slice as it was |
| UserReducer.ToggleReportTwice | front/src/context/redux/UserReducer.tsx:52-59 | reporting the same recipe twice leaves the whole slice as it was |
| ModalReducer.SetFlag | front/src/context/redux/ModalReducer.tsx:63-83 | an account dialog's flag takes the value; the other account flags and every other field stay; an unknown name changes nothing |
| ModalReducer.OpenThenClose | front/src/context/redux/ModalReducer.tsx:63-83 | open then close is the same as close alone |
| ModalReducer.CloseClosed | front/src/context/redux/ModalReducer.tsx:165-185 | closing a dialog that is already closed changes nothing |
| ModalReducer.ModalSlice.constructor | front/src/context/redux/ModalReducer.tsx:6-56 | every flag off, no loading overlay, every dialog closed with empty messages and no-op callbacks |
| ModalReducer.ModalSlice.OpenModal | front/src/context/redux/ModalReducer.tsx:63-83 | the new state is the old one with the named account dialog's flag set |
| ModalReducer.ModalSlice.CloseModal | front/src/context/redux/ModalReducer.tsx:165-185 | the new state is the old one with the named account dialog's flag cleared |
| ModalReducer.ModalSlice.OpenLoadingModal | front/src/context/redux/ModalReducer.tsx:85-92 | the loading overlay opened with the message; nothing else changes |
| ModalReducer.ModalSlice.SetRejectModal | front/src/context/redux/ModalReducer.tsx:95-103 | the reject dialog holds the payload and is open; nothing else changes |
| ModalReducer.ModalSlice.SetConfirmModal | front/src/context/redux/ModalReducer.tsx:106-115 | the confirm dialog holds the payload and is open; nothing else changes |
| ModalReducer.ModalSlice.SetOptionModal | front/src/context/redux/ModalReducer.tsx:118-128 | the option dialog holds the payload and is open; nothing else changes |
| ModalReducer.ModalSlice.SetSubmitModal | front/src/context/redux/ModalReducer.tsx:131-142 | the submit dialog holds the payload and its optional restriction and is open; nothing else changes |
| ModalReducer.ModalSlice.SetCursorModal | front/src/context/redux/ModalReducer.tsx:145-157 | the cursor dialog holds the payload and its position and is open; nothing else changes |
| ModalReducer.ModalSlice.SetTitleNContentModal | front/src/context/redux/ModalReducer.tsx:158-163 | the title-and-content dialog holds the payload and is open; nothing else changes |
| ModalReducer.ModalSlice.CloseLoadingModal | front/src/context/redux/ModalReducer.tsx:186-188 | only the loading overlay returns to its initial value |
| ModalReducer.ModalSlice.CloseRejectModal | front/src/context/redux/ModalReducer.tsx:189-191 | only the reject dialog returns to its initial value |
| ModalReducer.ModalSlice.CloseConfirmModal | front/src/context/redux/ModalReducer.tsx:192-194 | only the confirm dialog returns to its initial value |
| ModalReducer.ModalSlice.CloseOptionModal | front/src/context/redux/ModalReducer.tsx:195-197 | only the option dialog returns to its initial value |
| ModalReducer.ModalSlice.CloseSubmitModal | front/src/context/redux/ModalReducer.tsx:198-200 | only the submit dialog returns to its initial value |
| ModalReducer.ModalSlice.CloseCursorModal | front/src/context/redux/ModalReducer.tsx:201-203 | only the cursor dialog returns to its initial value |
| ModalReducer.ModalSlice.CloseTitleNContentModal | front/src/context/redux/ModalReducer.tsx:204-206 | only the title-and-content dialog returns to its initial value |
| ModalReducer.ModalSlice.CloseAll | front/src/context/redux/ModalReducer.tsx:209-221 | the whole slice is back to its initial state |
| ModalReducer.OpenAndClose | front/src/context/redux/ModalReducer.tsx:63-83 | opening and closing a dialog leaves it closed and everything else as before; if it was closed, the slice is unchanged |
| ModalReducer.CloseAllTwice | front/src/context/redux/ModalReducer.tsx:209-221 | `closeAll` is idempotent |
| ModalReducer.SetThenCloseAll | front/src/context/redux/ModalReducer.tsx:95-103 | `closeAll` after opening a dialog gives the initial state |
| TokenReducer.SignedOut | front/src/context/redux/TokenReducer.tsx:36-50 | tokens and info cleared and a guest, with the admin flag kept |
| TokenReducer.TokenSlice.constructor | front/src/context/redux/TokenReducer.tsx:12-18 | no tokens, no info, not a guest, an administrator |
| TokenReducer.TokenSlice.SetToken | front/src/context/redux/TokenReducer.tsx:25-35 | the access token stored, the refresh token replaced only when given, not a guest; nothing else changes |
| TokenReducer.TokenSlice.Logout | front/src/context/redux/TokenReducer.tsx:36-50 | the new state is the signed-out one |
| TokenReducer.TokenSlice.FetchUserInfoFulfilled | front/src/context/redux/TokenReducer.tsx:53-57 | info stored, not a guest, admin iff the role is `ROLE_ADMIN` |
| TokenReducer.TokenSlice.FetchUserInfoRejected | front/src/context/redux/TokenReducer.tsx:58-62 | info cleared, a guest, not an administrator |
| TokenReducer.TokenSlice.HandleUnauthorizedFulfilled | front/src/context/redux/TokenReducer.tsx:63-70 | a true payload clears the guest flag; a false one dispatches `logout`, so the slice is signed out |
| TokenReducer.TokenSlice.FetchUserInfo | front/src/context/redux/TokenReducer.tsx:109-122 | a reply leads to the fulfilled state; no reply leads to the rejected one |
| TokenReducer.TokenSlice.HandleUnauthorized | front/src/context/redux/TokenReducer.tsx:75-106 | with no refresh token: false, and the `fulfilled` case signs the user out; with one and a new token: true, the token stored, the refresh token kept; a failed refresh: false and signed out; the result is true iff a refresh token exists and the server answered |
| TokenReducer.RefreshKeepsRefreshToken | front/src/context/redux/TokenReducer.tsx:82-98 | after a successful refresh the refresh token is unchanged, so another refresh is possible |
| TokenReducer.NoRefreshAfterLogout | front/src/context/redux/TokenReducer.tsx:82-84 | after `logout` a refresh answers false and the slice stays signed out |
| Features.Present | flask/machine_learning/forest.py:30-32 | a value is kept iff it is present, and no more values come out than went in |
| Features.PresentAppend | flask/machine_learning/forest.py:30-32 | the values kept from a concatenation are those kept from each part, in order |
| Features.PresentSingle | flask/machine_learning/forest.py:30-32 | one entry gives its value when present and nothing otherwise; with `PresentAppend` this fixes order and multiplicity |
| Features.StripQuantities | flask/machine_learning/forest.py:38 | no quantity (a run of digits and dots) is left in the result |
| Features.StripKeepsOtherChars | flask/machine_learning/forest.py:38 | every character that is neither a digit, a dot nor an ASCII letter keeps its count |
| Features.StripQuantitiesAppend | flask/machine_learning/forest.py:38 | text without digits or dots in front of the rest passes through unchanged, and the rest is cleaned on its own |
| Features.StripQuantityRun | flask/machine_learning/forest.py:38 | a run of digits and dots followed by a run of ASCII letters is removed as a whole, and what follows is cleaned on its own |
| Features.StripQuantitiesIdempotent | flask/machine_learning/forest.py:38 | substituting a second time changes nothing |
| Features.SkipSpaceFrom | flask/machine_learning/forest.py:38 | the end of the longest run of whitespace starting at a position |
| Features.SkipSpaceBack | flask/machine_learning/forest.py:38 | the start of the longest run of whitespace ending at a position, not before a bound |
| Features.PyStrip | flask/machine_learning/forest.py:38 | the stripped text has no whitespace at either end |
| Features.PyStripFacts | flask/machine_learning/forest.py:38 | the stripped text is the slice of the input between a leading and a trailing stretch of whitespace; it is empty exactly when the input is all whitespace; it holds only input characters |
| Features.PyStripCount | flask/machine_learning/forest.py:38 | every character that is not whitespace keeps its count |
| Features.CleanSpecial | flask/machine_learning/forest.py:38 | a cleaned special has no quantity and no surrounding whitespace |
| Features.CleanSpecialFacts | flask/machine_learning/forest.py:38-39 | a special cleans to nothing exactly when what is left after removing quantities is all whitespace; every character other than whitespace, digits, dots and ASCII letters keeps its count |
| Features.CleanSpecialMeasured | flask/machine_learning/forest.py:38 | a quantity, its unit, a space and a trimmed name without digits or dots ("2cups sugar") clean to the name |
| Features.CleanedSpecialsShape | flask/machine_learning/forest.py:35-40 | every appended special is non-empty, quantity-free and trimmed |
| Features.CleanedSpecialsComplete | flask/machine_learning/forest.py:35-40 | every string special whose cleaned form is non-empty is appended |
| Features.ExtractIngredients | flask/machine_learning/forest.py:23-42 | the result is the present ingredient entries followed by the cleaned specials, in order |
| Features.ToRecipe | flask/machine_learning/forest.py:51-72 | id and ingredients copied; food rows read `RCP_WAY2`/`RCP_PAT2`, cocktail rows `category`/`glass`/`abv`, other indices carry neither |
| Features.BuildCorpus | flask/machine_learning/forest.py:49-76 | one row per hit, in order, each the `RowOf` that hit: `ToRecipe` of its id and fields, with the hit's `ingredient` values followed by its cleaned specials |
| Features.NameToId | flask/machine_learning/forest.py:182 | a name is a key iff some row has it; its id is that of the last row with that name |
| Features.ConvertNamesToIds | flask/machine_learning/forest.py:180-185 | the table keeps its shape and each cell maps through the name table, unknown names to `None` |
| Features.ConvertedIdsExist | flask/machine_learning/forest.py:180-185 | every id in a converted row is the id of a corpus row whose name is in the original row |
| Scoring.AbvSimilarity | flask/machine_learning/forest.py:376 | at most 1, exactly 1 iff the values are equal, negative iff they differ by more than 1 |
| Scoring.RoundHalfEven | flask/machine_learning/forest.py:409 | within 1/2 of the input, and an exact tie goes to the even integer |
| Scoring.RoundHalfEvenUnique | flask/machine_learning/forest.py:409 | those two properties determine the result |
| Scoring.Average | flask/machine_learning/forest.py:391-396 | average × count = total |
| Scoring.EntryScore | flask/machine_learning/forest.py:399-409 | the score is the banker's rounding of 100 × the weighted sum of the averages, with the abv term only when there is a scaler |
| Scoring.TotalsSkipUnknown | flask/machine_learning/forest.py:344-346 | a liked id missing from the corpus adds nothing to the totals |
| Scoring.UnknownLikeDilutes | flask/machine_learning/forest.py:343-396 | an unknown liked id leaves the totals alone but still counts in the divisor |
| Scoring.AbvWeightUnusedWithoutScaler | flask/machine_learning/forest.py:405-406 | without a scaler the abv weight does not affect any entry |
| Scoring.ScoreAll | flask/machine_learning/forest.py:331-413 | no liked id is scored, and each entry carries an abv average iff there is a scaler |
| Scoring.ScoreAllComplete | flask/machine_learning/forest.py:331-413 | every row not liked is scored |
| Scoring.SortDesc | flask/machine_learning/forest.py:416 | the result is a permutation of the input |
| Scoring.SortDescSorted | flask/machine_learning/forest.py:416 | the scores do not increase |
| Scoring.SortDescStable | flask/machine_learning/forest.py:416 | entries with equal scores keep their input order |
| Scoring.RankingFacts | flask/machine_learning/forest.py:327-417 | the ranking is sorted and stable, excludes liked ids and contains the entry of every other row |
| Scoring.SimilarityTotals | flask/machine_learning/forest.py:335-388 | the inner loop sums the per-pair similarities over the liked ids found in the corpus |
| Scoring.ScoreRow | flask/machine_learning/forest.py:335-413 | one row's entry equals the specification's `Entry` |
| Scoring.Recommend | flask/machine_learning/forest.py:327-417 | division by zero exactly when there are no likes and the corpus is non-empty; otherwise the ranking, which is sorted and holds no liked id |
| Scoring.PicksPrefix | flask/machine_learning/forest.py:428-430 | the top `n` picks are a prefix of the top `m` picks |
| Scoring.RecommendRecipe | flask/machine_learning/forest.py:420-431 | the `recommend` error passes through; asking for more picks than ranked entries is an index error; otherwise the (id, score) pairs of the first `top_n` entries |
| Training.NudgeUp | flask/machine_learning/forest.py:251 | with a learning rate in [0,1] a weight at most 1 rises but stays at most 1 |
| Training.NudgeDown | flask/machine_learning/forest.py:262 | with a learning rate in [0,1] a weight at least 0.01 falls but stays at least 0.01 |
| Training.TwoBest | flask/machine_learning/forest.py:244-246 | two distinct fields: the first is best overall and ahead of every earlier field; the second is best among the rest and ahead of every earlier one; this is the head of a stable sort |
| Training.TiesPickFirstTwo | flask/machine_learning/forest.py:244-246 | with all similarities equal both sorts pick fields 0 and 1 |
| Training.RaiseGet | flask/machine_learning/forest.py:249-259 | after the raising loop over distinct fields, a raised field is nudged up once and any other keeps its weight |
| Training.LowerGet | flask/machine_learning/forest.py:260-269 | after the lowering loop over distinct fields, a lowered field is nudged down once and any other keeps its weight |
| Training.NudgeGet | flask/machine_learning/forest.py:244-270 | each weight after both loops: unchanged in neither group, nudged up in the top two only, nudged down in the bottom two only, up then down in both |
| Training.NudgeKeepsRange | flask/machine_learning/forest.py:235-270 | the nudges keep every weight in [0.01, 1] and leave abv alone without a scaler |
| Training.BandFacts | flask/machine_learning/forest.py:272-312 | the band keeps the range; above 100 no weight grows, at 50 or below none shrinks, otherwise none moves; abv untouched without a scaler |
| Training.RowStepKeepsRange | flask/machine_learning/forest.py:217-312 | one training row keeps every weight in range |
| Training.NudgeWeights | flask/machine_learning/forest.py:249-270 | the two loops compute the specification's `Nudge` |
| Training.TrainRow | flask/machine_learning/forest.py:218-312 | a row with at most one like is skipped; an empty ranking or an unranked label is an error; otherwise the nudge (unless the label is in the top three) and then the band |
| Training.TrainKeepsRange | flask/machine_learning/forest.py:187-324 | trained weights starting in [0.01, 1] end in [0.01, 1], and abv is returned iff there is a scaler |
| Training.FileNamesAgree | flask/machine_learning/forest.py:171 | the saved and loaded file names agree iff the index is "cocktail" or "food" |
| Training.SaveWeights | flask/machine_learning/forest.py:158-178 | the file is named after the index; the record has exactly the five weight keys, each holding the weight given for it, abv included even when absent |
| Training.TrainWeight | flask/machine_learning/forest.py:187-324 | the epoch and row loops compute `Train`; weights are saved exactly when training completes for a known index |

## Left out

- Elasticsearch queries, the TF-IDF vectorizers and their pickle files, and file I/O. The cosine similarities and the abv scaler are parameters of `Similarity`. `save_weights` yields the file name and record it would write, and `load_weights_from_json` is kept only as its file name. `fetch_data_from_es` and `train_tfidf_model` are not part of this model beyond the row mapping.
- Floating point: reals are exact. `round` is banker's rounding on exact values. NaN is not modelled. In particular a missing name is never a key of the name table, whereas pandas would map NaN.
- `str(source.get('abv', ''))` formatting: the abv text is kept as given, not as Python formats numbers.
- The scaler is assumed to read the cocktail `abv` column. Its result is a parameter that is either present or absent.
- Randomness: `random.randint` and `train_test_split` are a schedule of (row, draw) pairs given as input. `train_test_split`'s own error on too few rows is not modelled.
- Training.Train: an unknown index returns four `None`s in the source. Here it is the single outcome `UnknownIndex`.
- Training.Band: the five statements per branch become one function, with the source's clamps in `ShrinkTo`/`GrowTo`.
- Scoring.Recommend: raises `DivisionByZero` before scoring the first row, where the source raises it after that row's inner loop. The inner loop has no effect, so the outcome is the same.
- Features.StripQuantities: `\d` in `[\d.]+` is read as the ASCII digits. Python's `re` on a `str` also matches every other Unicode decimal digit (a full-width `３`, say), which the model keeps.
- Features.Present: its own contract states membership and a length bound; order and multiplicity are stated by `PresentAppend` and `PresentSingle`.
- Features.PyStrip: its own contract states only that neither end is whitespace; `PyStripFacts` states that the result is the input less its leading and trailing whitespace.
- Features.CleanSpecial: its own contract states only that the result has no quantity and no surrounding whitespace; `CleanSpecialFacts` and `CleanSpecialMeasured` state what survives.
- `\d` in the phone pattern is read as ASCII digits, as JavaScript does without the `u` flag. The password pattern's length bound counts UTF-16 units (`Utf16Length`), as JavaScript does.
- Redux dispatch side effects are left out. These include the confirmation dialog `logout` opens and the HTTP calls of the thunks, whose outcomes are parameters. The `logout` that the thunk (TokenReducer.tsx:102) and the `fulfilled` case (TokenReducer.tsx:68) dispatch is applied to the slice after the step that dispatches it.
- TokenReducer.TokenSlice.HandleUnauthorizedFulfilled: `store.dispatch` from inside a reducer (TokenReducer.tsx:68, and the dialog at lines 41-49) is refused by Redux at run time with the error "Reducers may not dispatch actions."; the model applies the dispatched `logout` as the text intends and does not model that exception (not executed).
- `timeFromNow`, `formatDateAndTime` and `formatDate` read dates through `moment`/`Date`. Only their two-digit padding is modelled, not the date fields themselves.
- The callbacks stored in the modal slice are never called by the slice. They are modelled by identity only: `NoOp` for the empty arrow functions, `Handler(name)` for a page's handler.

## Findings

| source | as written | input that shows it | evidently intended | confidence | as-written member | corrected member |
|---|---|---|---|---|---|---|
| front/src/context/recoil/Selector.tsx:84-86 | `if (passwordRegex.test(...))` reports "bad format" when the password matches the required pattern | password "abcd123!" (letters, digits, a symbol, 8 characters) is reported as badly formed; "a" passes | the check negated, as the signup page's password input (front/src/page/auth/signup/MatchInput.tsx:32-50) does it: bad format when the pattern does NOT match | not executed | Validation.PasswordMatchAsWritten (with Validation.PasswordCheckIsInverted) | Validation.PasswordMatch (with Validation.PasswordVerdictsDisagree) |
