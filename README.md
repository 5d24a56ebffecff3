# X Writer: a verified model of the post quota, the credential import and the message lookup

X Writer is an editor extension that posts short texts to X (Twitter) from the
editor. This project models its logic in Dafny and proves what the code promises:

- **The daily post quota** (`rateLimiter.js`), in `rate_limiter.dfy`. At most 17 posts are allowed per 24-hour epoch. `QuotaStore` holds the two persisted scalars `tweetCount` and `lastResetTimestamp`. Its methods are the rollover check, the quota report, the increment and the two read-only queries. Each is proved against the pure functions `AfterReset`, `Status` and `Incremented`, and the lemmas cover the rollover cases, the cap and the rendering of the time left.
- **The credential import** (`credentialsManager.js`), in `credentials.dfy`. The file is split into lines, and every `KEY=VALUE` / `KEY: VALUE` line is matched against the pattern `^([^=:]+)[=:]\s*["']?([^"']+)["']?$`. The matcher is a backtracking search written by hand, in the order the regular-expression engine tries the alternatives. The key is normalised (trim, upper case, `EXPORT ` prefix removed) and looked up in the 15-entry alias table. The last assignment to a slot wins, and missing slots are reported in a fixed order. The parse loop and the missing-slot check are methods proved equal to the functions `Config` and `CredentialsFrom`. The round trip is proved: writing four plain values out as `name=value` lines, under any spelling of each slot's name the import accepts (any alias, in any ASCII case), and importing them gives the same four values back.
- **The secret-store commands** (`credentialsManager.js`), in `secrets.dfy`. These are saving, reading, deleting (after a confirmation) and importing, on a `CredentialStore` class that holds the secret store and the cached user name. It also models the choice between importing and typing credentials in.
- **The post command** (`extension.js`), in `extension.dfy`. This covers:
  - the input validator and the 280-character prefill;
  - the order of the guards: credentials, then quota, then input, then post;
  - the classification of failed posts;
  - the donation prompt every seventh post.
- **The message lookup** (`i18n.js`), in `i18n.dfy`. This is the language choice, the fallback from the chosen language to English and then to the key, and the placeholder substitution.
- `text.dfy` holds the JavaScript string built-ins these rely on. `wrappers.dfy` holds `Option` and `Result`.

The clock, the file dialog, the secret store's backend, the Twitter client and the editor's dialogs are not modelled. What they would return becomes a parameter:
- `now` in milliseconds;
- the file's text;
- the verification or post response;
- the dialog's answer;
- the language setting.

`formatTimeUntilReset` (rateLimiter.js:81-92) has no clamp: one millisecond in the past renders as `"-1m"` (`RateLimiter.FormatExamples`). The lemma `RateLimiter.ReachedCapWaitIsNonNegative` shows that the post command renders a reset time that is still ahead, under the model's reading of the clock: one `now` stands for both clock reads (rateLimiter.js:62 and :82). In the source the second read comes later, after awaited storage writes, so near the end of an epoch the shown wait can still be negative there.

The input box of the post command closes only on a text its validator accepts, or is dismissed. `PostTweet` and `PostWithCredentials` therefore require that a non-empty `input` passes `ValidateInput`, and they promise that the text they post is accepted and at most 280 characters long.

## Model

| member | source | states |
|---|---|---|
| Text.Trim | credentialsManager.js:142 | the result starts and ends with no white space; it is empty exactly when the input is all white space; it is a prefix of the start-trimmed input followed there only by white space, so exactly the leading and trailing white space is removed |
| Text.TrimOfTrimmed | credentialsManager.js:148-149 | trimming a string that is already trimmed leaves it unchanged, so trim is idempotent |
| Text.TrimStart | credentialsManager.js:155 | the result is a suffix of the input; only white space was dropped; the result does not start with white space |
| Text.TrimEnd | credentialsManager.js:142 | the result is a prefix of the input; only white space was dropped; the result does not end with white space |
| Text.TrimStartSkipsWhitespace | credentialsManager.js:146 | leading white space makes no difference to the start-trimmed string |
| Text.TrimStartAppend | credentialsManager.js:142 | once a string holds a non-white character, appending text does not change what trimming its start removes |
| Text.TrimEndSkipsWhitespace | credentialsManager.js:142 | trailing white space makes no difference to the end-trimmed string |
| Text.TrimSkipsTrailingWhitespace | credentialsManager.js:142 | trailing white space makes no difference to the trimmed string |
| Text.TrimSkipsWhitespace | credentialsManager.js:146-149 | leading white space makes no difference to the trimmed string |
| Text.ToUpper | credentialsManager.js:148 | the length is kept; each lower-case ASCII letter becomes its upper-case letter (code point minus 32); every other character is unchanged |
| Text.ToUpperOfUpper | credentialsManager.js:148 | a string with no lower-case letter is its own upper-case form |
| Text.ReplaceFirst | i18n.js:145 | only the first occurrence of the pattern is replaced; the string is unchanged when the pattern does not occur |
| Text.SplitLines | credentialsManager.js:129 | there is at least one piece, and no piece holds a line feed; SplitCrLfLines and SplitJoinLines give the pieces of CRLF and LF text |
| Text.Join | credentialsManager.js:170 | no contract of its own: the pieces with the separator between them; SplitJoinLines and SplitCrLfLines state that splitting undoes it |
| Text.JoinSplitLines | credentialsManager.js:129 | for a text without carriage returns, joining the pieces with line feeds gives the text back |
| Text.SplitJoinLines | credentialsManager.js:129 | splitting joined lines gives the lines back, when no line holds a line feed and none but the last ends in a carriage return |
| Text.SplitCrLfLines | credentialsManager.js:129 | joining lines that hold no line feed or carriage return with CRLF pairs and splitting gives the lines back: each carriage return goes with its line feed |
| Text.NatToDecimal | rateLimiter.js:89-91 | the numeral is non-empty, all digits, and has no leading zero |
| Text.DecimalRoundTrip | rateLimiter.js:89-91 | reading a rendered numeral back gives the number |
| Text.NatToDecimalInjective | rateLimiter.js:89-91 | different numbers render differently |
| Text.IntToDecimal | rateLimiter.js:89-91 | a minus sign appears exactly for negative numbers, followed by the numeral of the magnitude; a non-negative number renders as its numeral |
| RateLimiter.AfterReset | rateLimiter.js:60-74 | after the check the timestamp is set and the epoch is still running; the counter is kept or zeroed; the timestamp is kept or set to now |
| RateLimiter.ResetCases | rateLimiter.js:61-73 | an unset or zero timestamp only gets set to now and keeps the counter; an expired epoch zeroes the counter whatever it was; a running epoch, even one dated in the future, is left alone |
| RateLimiter.AfterResetIdempotent | rateLimiter.js:60-74 | a second check at the same instant changes nothing |
| RateLimiter.Remaining | rateLimiter.js:17 | the count left is never negative and at most 17 for a non-negative counter; it is positive exactly below the cap, and then it tops the counter up to 17 |
| RateLimiter.Status | rateLimiter.js:11-25 | posting is allowed exactly when the counter is below 17, which is when something remains; the remaining count is Remaining of the counter, max(0, 17 - count); the reset time is the stored timestamp (or now) plus 24 hours |
| RateLimiter.ResetTimeAfterCheck | rateLimiter.js:12-18 | after the check, the reset time is the end of the running epoch and lies after now |
| RateLimiter.Incremented | rateLimiter.js:31-34 | an increment adds exactly one and leaves the timestamp alone |
| RateLimiter.IncrementsAdd | rateLimiter.js:31-34 | n increments add exactly n, with no cap, and never touch the timestamp |
| RateLimiter.PostAttempt | extension.js:50-126 | one attempt keeps the checked timestamp and raises the checked counter by one only when the post went through and the check allowed it |
| RateLimiter.Run | extension.js:50-126 | no contract of its own: the attempts applied in order; CounterStaysWithinCap bounds its counter |
| RateLimiter.CounterStaysWithinCap | rateLimiter.js:11-34 | over any sequence of attempts, at any times and with any outcomes, the counter stays within 0..17 |
| RateLimiter.JsRemainder | rateLimiter.js:86 | the remainder takes the sign of the dividend, is smaller than the divisor in magnitude, and equals the mathematical remainder for a non-negative dividend |
| RateLimiter.FormatTimeUntilReset | rateLimiter.js:81-92 | no contract of its own: whole hours and minutes with no clamp; FormatHoursAndMinutes gives the rendering of every non-negative span and FormatExamples the negative case |
| RateLimiter.FormatHoursAndMinutes | rateLimiter.js:81-92 | a span of h whole hours and m whole minutes renders as "h" + "h " + "m" + "m", with the hours dropped when there are none |
| RateLimiter.FormatExamples | rateLimiter.js:81-92 | 2h 5m renders "2h 5m", 45 minutes renders "45m", zero renders "0m", and one millisecond in the past renders "-1m" (there is no clamp) |
| RateLimiter.ReachedCapWaitIsNonNegative | rateLimiter.js:12-18 | the wait shown after a check made at the same instant never starts with a minus sign |
| RateLimiter.QuotaStore.constructor | rateLimiter.js:14 | a fresh state has counter 0 and no timestamp |
| RateLimiter.QuotaStore.ResetIfNeeded | rateLimiter.js:60-74 | the new state is AfterReset of the old state; the counter stays non-negative |
| RateLimiter.QuotaStore.CanPostTweet | rateLimiter.js:11-25 | the rollover runs first; the report is Status of the state it leaves; posting is allowed exactly below the cap; the remaining count is max(0, 17 - count) of the counter after the rollover; the reset time lies after now |
| RateLimiter.QuotaStore.IncrementTweetCount | rateLimiter.js:31-34 | the new state is Incremented of the old state |
| RateLimiter.QuotaStore.RemainingTweets | rateLimiter.js:41-44 | the result is Remaining of the stored count (17 minus the count, floored at 0, with no rollover), so it is within 0..17 and positive exactly below the cap |
| RateLimiter.QuotaStore.ResetTime | rateLimiter.js:51-54 | the stored timestamp (or now) plus 24 hours, read with no rollover |
| I18n.GetLanguage | i18n.js:130-138 | the result is "es" or "en", and it is "es" exactly when the setting is "es" |
| I18n.EnglishMessage | i18n.js:4-65 | no contract of its own: the English table; SameKeys and MissingKeysTemplate state what it holds |
| I18n.SpanishMessage | i18n.js:66-127 | no contract of its own: the Spanish table; SameKeys states that it has the English keys |
| I18n.SameKeys | i18n.js:4-126 | the English and Spanish tables define the same keys |
| I18n.Template | i18n.js:142 | the chosen language's message when it is non-empty; else the English one when that is non-empty; else the key itself for an unknown key |
| I18n.Placeholder | i18n.js:145 | the placeholder for argument i is the decimal numeral of i wrapped in braces |
| I18n.PlaceholdersDistinct | i18n.js:144-148 | different arguments have different placeholders, so each replacement targets its own argument |
| I18n.Format | i18n.js:144-148 | no contract of its own: one first-occurrence replacement per argument, in order; FormatWithoutPlaceholders and FillSolePlaceholder state its results |
| I18n.Translate | i18n.js:140-149 | no contract of its own: Format of Template; T computes it, and MissingKeysMessage gives an instance |
| I18n.T | i18n.js:140-149 | the loop replaces, for each argument in order, the first occurrence of its placeholder, giving Translate; with no arguments the looked-up message is returned unchanged |
| I18n.FormatWithoutPlaceholders | i18n.js:144-148 | a message without braces is returned unchanged, whatever the arguments |
| I18n.FirstBrace | i18n.js:145 | an occurrence of a brace pattern with no brace before it is the first occurrence |
| I18n.FillSolePlaceholder | i18n.js:144-148 | a message whose only brace is a trailing {0} gets its one argument in that place |
| I18n.MissingKeysTemplate | i18n.js:16 | with English chosen, the missing-keys message is its fixed text followed by {0} |
| I18n.MissingKeysMessage | i18n.js:140-149 | with English chosen, the missing-keys message is its fixed text followed by the list of names, whatever the names are |
| I18n.DispatchLabelsDiffer | i18n.js:7-84 | in either language the import and manual labels differ, and the delete and cancel buttons differ |
| I18n.OptionLabelsDiffer | i18n.js:7-72 | in either language the import label and the manual label differ |
| I18n.ButtonLabelsDiffer | i18n.js:21-84 | in either language the delete button and the cancel button differ |
| Credentials.SecretKeysDistinct | credentialsManager.js:4-9 | the four secret-store keys are pairwise distinct |
| Credentials.KeyMap | credentialsManager.js:133-138 | no contract of its own: the fifteen aliases and their slots; CanonicalNamesMapped states that each canonical name maps to its slot |
| Credentials.CanonicalNamesMapped | credentialsManager.js:133-138 | each slot's canonical name maps to that slot in the alias table |
| Credentials.QuoteFreeRun | credentialsManager.js:146 | the longest quote-free prefix, ended by a quote or by the end |
| Credentials.CaptureFrom | credentialsManager.js:146 | backtracking from length n, the capture succeeds exactly when it is non-empty and is followed by nothing or by a single closing quote; the capture is that prefix |
| Credentials.Capture | credentialsManager.js:146 | the greedy quote-free capture, with an optional closing quote, is the only one that ends the line |
| Credentials.QuotedCapture | credentialsManager.js:146 | the optional opening quote is tried first; the capture is non-empty and quote-free; it succeeds whenever some capture fits |
| Credentials.SpacedCaptureFrom | credentialsManager.js:146 | the leading white space is tried longest first; the capture has the declared value shape; it succeeds whenever some split of the leading white space admits one |
| Credentials.SameStartAgrees | credentialsManager.js:146 | two value-part matches that absorb the same white space capture the same text |
| Credentials.LaterStartAgrees | credentialsManager.js:146 | of two value-part matches, the one absorbing less white space captures that white space followed by what the other captures |
| Credentials.ShapesAgree | credentialsManager.js:146-149 | two value-part matches, ordered by the white space they absorb, trim to the same value |
| Credentials.CaptureChoiceIrrelevant | credentialsManager.js:146-149 | any two captures of the value shape trim to the same value, so the engine's choice does not change what is stored |
| Credentials.LeadingWhitespace | credentialsManager.js:146 | the longest prefix that is all white space |
| Credentials.ValueCapture | credentialsManager.js:146 | the capture has the value shape and is non-empty and quote-free; a capture exists exactly when some value fits the shape |
| Credentials.SeparatorIndex | credentialsManager.js:146 | the index of the first = or : of the line, or none |
| Credentials.MatchLine | credentialsManager.js:146 | a match exists exactly when the line has a separator (= or :) after a non-empty text and the text after the first separator yields a value; the key is then that text, a prefix of the line ending at the first separator; the value is a non-empty quote-free capture |
| Credentials.MatchedValueShape | credentialsManager.js:146 | the value of a match has the value shape in the text after the first separator |
| Credentials.CleanValue | credentialsManager.js:149-152 | a quote-free capture is stored trimmed, and stays quote-free |
| Credentials.Assign | credentialsManager.js:148-159 | a matched line assigns exactly when its cleaned key is in the alias table, to that key's slot, and a quote-free capture is stored trimmed |
| Credentials.StripExport | credentialsManager.js:155 | the result is a suffix of the key; it differs from the key exactly when the key starts with EXPORT followed by white space, and then EXPORT and all the white space after it are removed, leaving a result that does not start with white space |
| Credentials.CleanKey | credentialsManager.js:148-155 | the cleaned key holds no lower-case ASCII letter; CleanKeyOfSpelling, CleanKeyIgnoresTrailingSpace and ExportPrefixDropped give its value for trimmed, upper-cased and export-prefixed keys |
| Credentials.StripTrailingQuote | credentialsManager.js:152 | a quote-free value is unchanged |
| Credentials.ParseLine | credentialsManager.js:141-160 | an assigned value is quote-free and trimmed |
| Credentials.SkippedLines | credentialsManager.js:142-143 | blank lines and lines that start with # after trimming assign nothing |
| Credentials.StoredValueIsTrimmedCapture | credentialsManager.js:146-152 | an assigning line matches the pattern, and the stored value is the trimmed capture |
| Credentials.SpacedValueCaptured | credentialsManager.js:146 | white space followed by a plain value captures the value alone |
| Credentials.PlainSeparator | credentialsManager.js:146 | after a key holding no separator, the separator (= or :) that follows is the first one |
| Credentials.SpellingFacts | credentialsManager.js:146-155 | any ASCII-case spelling of a plain name is non-empty, does not start with #, and holds no white space and no separator |
| Credentials.CleanKeyOfSpelling | credentialsManager.js:148-155 | a key written in any ASCII case (api_key, Api_Key) is trimmed and upper-cased to its plain name |
| Credentials.CleanKeyIgnoresTrailingSpace | credentialsManager.js:142-155 | white space between the key and the separator does not change the cleaned key |
| Credentials.SeparatedLineMatched | credentialsManager.js:146 | a line cut at its first separator, = or :, after a non-empty key matches with that key when the rest yields a value |
| Credentials.MatchedLineParses | credentialsManager.js:141-160 | a trimmed line that is not a comment and matches the pattern is handled as its key and captured value |
| Credentials.AssignsCapture | credentialsManager.js:149-159 | a trimmed quote-free capture under an accepted key is stored unchanged in that key's slot |
| Credentials.MatchedLineAssigns | credentialsManager.js:141-160 | a trimmed matching line with an accepted key and a trimmed capture assigns the capture to the key's slot |
| Credentials.PlainLineMatched | credentialsManager.js:146 | a line name + white space + separator (= or :) + white space + value, with name any ASCII-case spelling of a plain name, matches with key name plus its trailing white space and the value |
| Credentials.PlainLineAssigns | credentialsManager.js:141-160 | such a line (API_KEY = abc, API_KEY : abc, api_key=abc) assigns the value to the slot the upper-cased name is an alias of |
| Credentials.QuotedValueCaptured | credentialsManager.js:146 | a value between two quotes is captured without them |
| Credentials.QuotedBodyCaptured | credentialsManager.js:146 | the optional quotes around a plain value are both taken, and the value is captured |
| Credentials.UpperExport | credentialsManager.js:148 | upper-casing "export " + key gives "EXPORT " + the upper-cased key |
| Credentials.ExportStripped | credentialsManager.js:155 | "EXPORT " + a plain name normalises to the name |
| Credentials.ExportPrefixDropped | credentialsManager.js:148-155 | a key written "export name" in any case normalises to the upper-case name |
| Credentials.ExportedSeparator | credentialsManager.js:146 | in export name="value" the first separator is the one after the name |
| Credentials.ExportedLineMatched | credentialsManager.js:146 | export name="value" matches with the value unquoted |
| Credentials.ExportedQuotedLineAssigns | credentialsManager.js:141-160 | export name="value" assigns value to the slot the name is an alias of |
| Credentials.Assignments | credentialsManager.js:140-161 | one parse outcome per line, in order |
| Credentials.Fill | credentialsManager.js:157-159 | no contract of its own: the assignments made in order; LastAssignmentWins states the config it builds |
| Credentials.Config | credentialsManager.js:140-161 | no contract of its own: Fill of the line outcomes; RenderedConfig states it for a written file |
| Credentials.LastAssignmentWins | credentialsManager.js:157-159 | a slot is set exactly when some line assigns it, whatever alias it used; its value is the one of the last such line |
| Credentials.AssignedIffFilled | credentialsManager.js:157-159 | a slot is set exactly when some line assigns it |
| Credentials.LastAssignmentWitness | credentialsManager.js:157-159 | a set slot holds the value of the last line that assigns it |
| Credentials.FillStep | credentialsManager.js:140-161 | one more line either leaves the config alone or sets the one slot it assigns |
| Credentials.Pick | credentialsManager.js:164-167 | one push: the slot is listed exactly when it is unset or empty |
| Credentials.Missing | credentialsManager.js:163-167 | the list holds exactly the unset or empty slots |
| Credentials.MissingIsOrdered | credentialsManager.js:163-167 | the missing slots come in the order API_KEY, API_SECRET, ACCESS_TOKEN, ACCESS_SECRET, each once |
| Credentials.CredentialsFrom | credentialsManager.js:163-173 | failure exactly when some slot is unset or empty, with the error Missing(config) naming exactly those; success gives the four values, all non-empty |
| Credentials.ParseCredentials | credentialsManager.js:129-171 | no contract of its own: CredentialsFrom of the config of the lines; ImportRoundTrip and ParseCredentialText state it |
| Credentials.RenderedLineAssigns | credentialsManager.js:141-160 | the line name=value written for a slot, with name any accepted spelling of it, assigns that value to that slot |
| Credentials.RenderedLineIsSingle | credentialsManager.js:129 | a written line holds no line feed and does not end in a carriage return |
| Credentials.RenderedLinesSplit | credentialsManager.js:129 | splitting the written file gives the four written lines back |
| Credentials.RenderedLinesAssign | credentialsManager.js:140-161 | the four written lines assign the four values in slot order |
| Credentials.FillPrefix | credentialsManager.js:140-161 | after the first k written lines, exactly the first k slots are set, to their values |
| Credentials.CompleteConfig | credentialsManager.js:163-173 | a config with all four slots set to non-empty values yields exactly those four values |
| Credentials.RenderedConfig | credentialsManager.js:129-161 | importing the written file sets all four slots to their values |
| Credentials.ImportRoundTrip | credentialsManager.js:129-173 | writing four plain values out as name=value lines, each under any accepted spelling of its slot (any alias, any ASCII case), and importing them gives the same four values |
| Credentials.CanonicalImportRoundTrip | credentialsManager.js:129-173 | the round trip with each slot written under its canonical name |
| Credentials.CanonicalSpellings | credentialsManager.js:133-138 | each canonical name is an accepted spelling of its slot |
| Credentials.ParseCredentialText | credentialsManager.js:129-171 | the line loop and the missing check compute ParseCredentials of the text |
| Credentials.MissingList | credentialsManager.js:170 | no contract of its own: the missing names joined by ", "; MissingKeysMessage shows how they are reported |
| Credentials.CheckMissing | credentialsManager.js:163-171 | the pushes build the missing list, and the result is CredentialsFrom of the config |
| Secrets.CredentialStore.constructor | credentialsManager.js:185 | the store starts with the given secrets and cached name |
| Secrets.WithCredentials | credentialsManager.js:186-190 | no contract of its own: the four writes; WithCredentialsStores and WithCredentialsKeepsOthers state the result |
| Secrets.WithCredentialsKeepsOthers | credentialsManager.js:186-190 | the four writes add exactly the four keys and leave every other key's value alone |
| Secrets.WithCredentialsStores | credentialsManager.js:187-190 | after the four writes each slot's key holds that slot's value |
| Secrets.RemoveEach | credentialsManager.js:254-259 | a generic map-algebra step used by ResetCredentials: deleting four keys one at a time from a map equals removing the set of those four keys at once |
| Secrets.ShowVerification | credentialsManager.js:203-214 | the notice is the success message with the user name, or the warning with the error's message |
| Secrets.VerificationNotice | credentialsManager.js:202-214 | a successful verification gives an information notice, a failed one a warning |
| Secrets.MissingNotice | credentialsManager.js:169-176 | no contract of its own: the import error wrapped around the missing-keys message; ImportCredentials states when it is shown |
| Secrets.CredentialStore.GetCredentials | credentialsManager.js:222-233 | each slot reads the value stored under its key, or nothing |
| Secrets.CredentialStore.SaveAndVerifyCredentials | credentialsManager.js:184-215 | the four values are stored over the old store and read back; the cached name changes only on a successful verification; the notice is the success or failure message |
| Secrets.CredentialStore.ResetCredentials | credentialsManager.js:240-263 | deletion happens exactly when the answer is the delete label, never on the cancel label; then the four keys are gone and the cached name cleared; otherwise nothing changes |
| Secrets.CredentialStore.ImportCredentials | credentialsManager.js:109-179 | no file changes nothing; missing slots give the import error naming them and change nothing; otherwise the parsed values are saved and verified |
| Secrets.Route | credentialsManager.js:16-62 | a dismissed pick does nothing; the import runs exactly when the import label is picked and the select-file button confirmed; manual entry runs exactly when some other label is picked |
| Secrets.RouteByLabel | credentialsManager.js:48-61 | in either language, the manual label leads to manual entry, and the import label, once the file button is confirmed, leads to the import |
| Extension.ValidateInput | extension.js:88-97 | a blank text is rejected as empty; otherwise a text over 280 characters is rejected as too long with its length; the text is accepted exactly when it is not blank and fits |
| Extension.Acceptable | extension.js:88-97 | no contract of its own: not blank and at most 280 characters; ValidateInput accepts exactly these texts |
| Extension.Prefill | extension.js:62-68 | the prefill is the selection's first min(length, 280) characters |
| Extension.PrefillIdempotent | extension.js:65-67 | cutting a prefill again changes nothing |
| Extension.PrefillAccepted | extension.js:65-97 | the validator accepts a prefill exactly when it is not blank |
| Extension.Classify | extension.js:142-148 | the rate-limit kind is exactly code 429; the auth kind is exactly codes 401 and 403 |
| Extension.ErrorMessage | extension.js:142-148 | 429 shows the rate-limit message; 401 and 403 show the auth message; any other error shows the generic message with its own text |
| Extension.ClassifiedMessagesIgnoreDetails | extension.js:142-148 | for 429, 401 and 403 the error's own text is not shown, and 401 and 403 show the same message |
| Extension.DonationDue | extension.js:214 | no contract of its own: a positive multiple of seven; PromptsCount and OnePromptPerSevenPosts count how often it holds |
| Extension.PromptsScheduled | extension.js:207-218 | no contract of its own: the prompts n posts schedule; PromptsCount gives their number |
| Extension.PromptsCount | extension.js:208-218 | n posts after start earlier ones schedule one prompt per multiple of seven they pass |
| Extension.PromptsFromFresh | extension.js:208-218 | from a fresh counter, n posts schedule n / 7 prompts |
| Extension.OnePromptPerSevenPosts | extension.js:208-218 | any seven consecutive posts schedule exactly one prompt |
| Extension.UsageCounter.constructor | extension.js:208 | the counter starts at the stored count |
| Extension.UsageCounter.CheckDonationPrompt | extension.js:207-220 | the lifetime count grows by exactly one, and the prompt is scheduled exactly when the new total is a multiple of seven |
| Extension.CredentialsPresent | extension.js:35 | the credentials count as present exactly when each of the four is truthy |
| Extension.HasAllCredentials | extension.js:35 | no contract of its own: every slot is truthy; CredentialsPresent ties it to the four checks of the source |
| Extension.TweetUrl | extension.js:123 | no contract of its own: the status link; TweetUrlInjective states that different ids give different links |
| Extension.TweetUrlInjective | extension.js:123 | the id can be read back from the link, so different tweets get different links |
| Extension.SendTweet | extension.js:104-148 | a rejected post shows the classified message and changes nothing; a new tweet gives its link and the success message, adds one to the daily counter and one to the lifetime counter, and schedules the prompt when the new total is due |
| Extension.PostWithCredentials | extension.js:49-148 | a reached cap stops with the time-left warning and no post; otherwise the input box opens with the prefill; a dismissed or empty input posts nothing; a posted text is one the validator accepts, at most 280 characters; the quota state is PostAttempt of the old one |
| Extension.PostTweet | extension.js:30-150 | missing or empty credentials stop the command before the quota check, with nothing changed; a reached cap stops it after the rollover with the time-left warning and no post; a dismissed input posts nothing; the quota state is PostAttempt of the old one; the counters move only after a successful post; a posted text is one the validator accepts, at most 280 characters; failures are classified |

## Left out

- The editor UI is not modelled: quick picks, input boxes, message boxes, the progress notification, the tree view (`viewProvider.js`) and command registration (extension.js:12-202). The answer a dialog gives is a parameter.
- The donate and help commands (extension.js:153-194) are not modelled. They only show dialogs, open links and write the language setting.
- Opening the tweet link after "View on X", and running the setup command after a "yes" to the missing-credentials question (extension.js:43-45, 128-135), are not modelled. `PostTweet` reports the link and the message only.
- Manual entry of credentials through four input boxes (credentialsManager.js:67-103) is not modelled. It is UI that ends in `SaveAndVerifyCredentials`, which is modelled. `Route` reports that manual entry was chosen.
- The Twitter client (`client.v2.me`, `client.v2.tweet`) is not modelled. Its answer is the parameter `verification` or `response`.
- The file dialog and the file read (credentialsManager.js:110-127) are not modelled. The file's text is a parameter, and `None` stands for a dismissed dialog.
- The clock is not modelled. One `now` stands for both clock reads in a post command (rateLimiter.js:62 and 82).
- The 1500 ms timer before the donation prompt (extension.js:216) is not modelled. Only the fact that the prompt was scheduled is.
- Concurrency is not modelled. The quota check and the increment are not atomic in the source (extension.js:50, 126), and the model is sequential.
- Console logging is not modelled.
- The block at credentialsManager.js:39-43 is not modelled. It has no effect.
- Exceptions other than the client's are not modelled: secret-store failures, an unreadable file, and storage errors caught by the post command's catch block.
- Extension.ValidateInput: lengths count Unicode characters, not the UTF-16 code units that `text.length` counts. The same holds for `Extension.Prefill`.
- Text.ToUpper: only ASCII letters are upper-cased. `toUpperCase` also maps other letters, some of them to ASCII and some to more than one character ('ſ' to "S", 'ı' to "I", 'ß' to "SS"). A key such as `acceſs_token` or `apı_key` therefore fills a slot in the source but is ignored by the model, and the model never changes a key's length.
- The `$` patterns that `String.prototype.replace` expands in a replacement (i18n.js:145) are not modelled. Arguments are assumed to contain no `$`.
- A failed post's error `code` is an optional integer. A code that is not a number never equals 429, 401 or 403 in the source either.
- The alias table is looked up as a map. Keys inherited from `Object.prototype` cannot match, because the normalised key is upper case.
