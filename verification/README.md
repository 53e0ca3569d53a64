# animeditate core, modelled in Dafny

animeditate is a React Native wellbeing app built as a daily "episode":
the user checks in with a mood, reflects in a chat with Eva, and listens to
a Zen Quest meditation personalised with their arc title, boss and final
form. This project models the app's logic as pure Dafny functions over
immutable values and proves properties of it:

- **`JsString`** (`jsstring.dfy`): JavaScript strings as sequences of UTF-16
  code units, with the string operations the app uses: `trim`, `split`,
  `replace` with a global literal pattern, and ASCII case mapping. `join`
  is not used by the app; it is modelled as the inverse of `split`, to
  state what `split` and `replace` do.
- **`EvaPlaceholder`** (`evaplaceholder.dfy`): Eva's deterministic template
  engine (`services/evaPlaceholder.ts`):
  - the 32-bit rolling hash;
  - reply selection by length bucket and hash;
  - meditation selection by arc-title length;
  - four-token interpolation with defaults;
  - mood capitalisation;
  - splitting a script into lines.
- **`DailyFlow`** (`dailyflow.dfy`): the three daily flags, their setters,
  the reset, and the outside-provider error.
- **`Onboarding`** (`onboarding.dfy`): the profile store, with its
  monotone completion flag.
- **`HomeCard`** (`homecard.dfy`): a card's status label, its locked look,
  and whether it takes presses.
- **`ReflectionChat`** (`reflectionchat.dfy`): the chat screen's log, with
  round-robin canned replies.
- **`OnboardingBoss`** and **`OnboardingArcTitle`**
  (`onboardingboss.dfy`, `onboardingarctitle.dfy`): the validators and the
  Next handlers of the two onboarding screens.
- **`Results`** (`results.dfy`): small shared wrappers: `Option`, `Result`,
  and a mounted/unmounted context provider.

Strings are `seq<CodeUnit>`, where a code unit is 0..0xFFFF, because
`length` and `charCodeAt` count UTF-16 code units. Template text is written
as Dafny string literals and converted with `Units`. `UnitsIsUtf16` proves
that `Units` is the UTF-16 encoding for text in the Basic Multilingual
Plane, which holds for every literal of the app.

Three points where a reader might expect other behaviour; the model
follows the code in each:

- The short-message reply bucket is `length < 30`
  (services/evaPlaceholder.ts:243), although the function's own doc
  comment says "< 20" (services/evaPlaceholder.ts:214).
- A card's status is not derived from the daily flags. The home screen
  passes fixed statuses (screens/HomeScreen.tsx:38-57), so
  `HomeCard.HomeScreenCards` records exactly what is rendered.
- `PrimaryButton` takes no `disabled` prop (components/PrimaryButton.tsx:11-17).
  Every `disabled={!isValid}` passed to it is therefore ignored, and a
  handler's own test is the only guard.

## Model

| member | source | states |
|---|---|---|
| JsString.UnitsIsUtf16 | services/evaPlaceholder.ts:160-161 | On Basic-Multilingual-Plane text, the one-unit-per-character conversion equals the UTF-16 encoding, so template lengths and `charCodeAt` values are those of JavaScript |
| JsString.IsBlank | screens/ReflectionChatScreen.tsx:55 | `!s.trim()` holds exactly when the string is only whitespace |
| JsString.Trim | services/evaPlaceholder.ts:226 | `trim()` leaves no whitespace at either end and never makes the string longer |
| JsString.TrimFramed | services/evaPlaceholder.ts:297 | What `trim()` returns is a contiguous slice of the input, with only whitespace before and after it |
| JsString.TrimEmptyIffAllWhitespace | services/evaPlaceholder.ts:226 | `trim()` gives the empty string exactly when every unit of the input is whitespace |
| JsString.TrimIdempotent | services/evaPlaceholder.ts:297 | Trimming an already trimmed string changes nothing |
| JsString.TrimmedIsFixedPoint | services/evaPlaceholder.ts:297 | A string is left alone by `trim()` exactly when neither end is whitespace |
| JsString.TrimUnitsFromSource | screens/OnboardingArcTitleScreen.tsx:31 | Every code unit of a trimmed string occurs in the original |
| JsString.SplitOn | services/evaPlaceholder.ts:296 | `split(sep)` returns at least one piece, the first piece is a prefix of the input, and no piece contains the separator |
| JsString.JoinSplitOn | services/evaPlaceholder.ts:296 | Joining the pieces of a split with the separator gives back the input |
| JsString.SplitOnUnitCount | services/evaPlaceholder.ts:296 | Splitting on a single unit gives one more piece than that unit's number of occurrences |
| JsString.SplitOnJoin | services/evaPlaceholder.ts:296 | Splitting a join of separator-free pieces gives back the pieces |
| JsString.ReplaceAll | services/evaPlaceholder.ts:174-177 | A global replace with a replacement as long as the pattern keeps the length, and the pattern alone becomes the replacement |
| JsString.ReplaceAllIsSplitJoin | services/evaPlaceholder.ts:173-177 | A global replace equals cutting at every occurrence of the pattern and joining with the replacement |
| JsString.ReplaceAllAbsent | services/evaPlaceholder.ts:173-177 | A replace whose pattern does not occur leaves the text unchanged |
| JsString.UpperUnit | services/evaPlaceholder.ts:185 | `toUpperCase` on one unit maps a-z to A-Z and leaves everything else unchanged (ASCII) |
| JsString.LowerUnit | services/evaPlaceholder.ts:185 | `toLowerCase` on one unit maps A-Z to a-z and leaves everything else unchanged (ASCII) |
| JsString.ToLower | services/evaPlaceholder.ts:185 | `toLowerCase` on a string keeps its length and lower-cases each unit in place (ASCII) |
| EvaPlaceholder.ToInt32 | services/evaPlaceholder.ts:162-163 | The wrap used by `<<` and `&` gives a signed 32-bit value congruent to its input modulo 2^32, and is the identity on 32-bit values |
| EvaPlaceholder.HashStep | services/evaPlaceholder.ts:162-163 | One loop round, `((h << 5) - h) + c` then `h & h`, equals the 32-bit wrap of 31·h + c |
| EvaPlaceholder.HashState | services/evaPlaceholder.ts:159-164 | After each step of the loop, `hash & hash` has left the state a signed 32-bit integer |
| EvaPlaceholder.HashStateIsPolynomial | services/evaPlaceholder.ts:158-164 | After the loop, the hash is the polynomial Σ c_k·31^(n-1-k), wrapped once to 32 bits |
| EvaPlaceholder.SimpleHash | services/evaPlaceholder.ts:158-166 | `simpleHash` is the absolute value of the wrapped polynomial; it lies in [0, 2^31], and the empty string hashes to 0 |
| EvaPlaceholder.OrDefault | services/evaPlaceholder.ts:174-177 | `value \|\| fallback` gives the value unless it is the empty string, and the fallback otherwise |
| EvaPlaceholder.Interpolate | services/evaPlaceholder.ts:172-178 | Text containing none of the four tokens comes back unchanged |
| EvaPlaceholder.ReplaceToken | services/evaPlaceholder.ts:174-177 | One replace stage leaves text without its token unchanged, and otherwise equals the text cut at every occurrence of the token and rejoined with the value, or the default when the value is empty |
| EvaPlaceholder.ReplaceTokenEveryOccurrence | services/evaPlaceholder.ts:174-177 | Each stage replaces every occurrence of its token with the value or its default: the text cut at the token and rejoined with the value |
| EvaPlaceholder.TokenFreeTextPassesStages | services/evaPlaceholder.ts:173-177 | Text without any of the four tokens passes through the four replace stages unchanged |
| EvaPlaceholder.InterpolateIsSequential | services/evaPlaceholder.ts:173-177 | The stages run one after another, so an arc title that reads `{mood}` is replaced in turn by the mood |
| EvaPlaceholder.InterpolateUsesDefaults | services/evaPlaceholder.ts:174-177 | An empty value interpolates exactly as its default: 'Your Journey', 'your challenge', 'your true self' or 'present' |
| EvaPlaceholder.InterpolateEmptyBoss | services/evaPlaceholder.ts:175 | With an empty boss, a lone `{boss}` becomes 'your challenge' and nothing else changes it |
| EvaPlaceholder.FormatMood | services/evaPlaceholder.ts:183-186 | The empty mood becomes 'present'. Any other mood keeps its length, starts with a non-lower-case unit, has no upper-case letter after that, and equals the input up to case; the result is never empty |
| EvaPlaceholder.FormatMoodIdempotent | services/evaPlaceholder.ts:183-186 | Formatting a formatted non-empty mood changes nothing |
| EvaPlaceholder.EmptyMoodFormatsTwiceDifferently | services/evaPlaceholder.ts:183-186 | The empty mood is the exception: it formats to 'present', which formats again to 'Present' |
| EvaPlaceholder.FormatMoodIgnoresCase | services/evaPlaceholder.ts:183-186 | Moods that differ only in letter case format identically |
| EvaPlaceholder.FormatContext | services/evaPlaceholder.ts:197-200 | A generator keeps arc title, boss and final form as given and replaces the mood by its formatted form |
| EvaPlaceholder.InitialReflectionMessages | services/evaPlaceholder.ts:196-206 | Exactly two Eva messages, in template order, each being its template interpolated with the formatted context; the second is the fixed question whatever the context |
| EvaPlaceholder.SecondOpeningHasNoTokens | services/evaPlaceholder.ts:90-93 | The second opening template contains none of the four tokens |
| EvaPlaceholder.ReplyTemplateIndex | services/evaPlaceholder.ts:241-252 | The hash picks within the length bucket: below 30 units template 4 + h mod 2; from 30 to 99, h mod 3; from 100 on, 3 exactly when h is even, else 6. The index is always one of the seven templates |
| EvaPlaceholder.Reply | services/evaPlaceholder.ts:221-264 | A reply is always from Eva. A blank or whitespace-only message gets "I'm here when you're ready to share." whatever the context. Any other message gets the template chosen by its untrimmed length and its `simpleHash`, which lies in that length's bucket, interpolated with the formatted context |
| EvaPlaceholder.ShortRepliesFollowParity | services/evaPlaceholder.ts:243-245 | Two non-blank messages under 30 units whose hashes have the same parity get the same reply |
| EvaPlaceholder.LongRepliesFollowParity | services/evaPlaceholder.ts:249-252 | Two non-blank messages of 100 units or more whose hashes have the same parity get the same reply |
| EvaPlaceholder.MeditationTemplateIndex | services/evaPlaceholder.ts:278-279 | The meditation index is one of the four templates, congruent to the arc title's length modulo 4, and 0 for an empty title |
| EvaPlaceholder.ZenQuestMeditation | services/evaPlaceholder.ts:276-288 | The script is the meditation template picked by the arc title's length, interpolated with the formatted mood; every empty value comes out as its default |
| EvaPlaceholder.MeditationVoiceIsStable | services/evaPlaceholder.ts:276-288 | The arc title matters only through its length mod 4 and the value it substitutes: requests that agree on these and on the other values, once defaults are filled in, get the same script |
| EvaPlaceholder.MeditationIgnoresMoodCase | services/evaPlaceholder.ts:282-287 | Non-empty moods that differ only in letter case give the same script |
| EvaPlaceholder.EmptyTitleMeditation | services/evaPlaceholder.ts:278-279 | An empty arc title selects the first meditation and reads as 'Your Journey' in it |
| EvaPlaceholder.KeepNonEmpty | services/evaPlaceholder.ts:298 | The filter keeps the non-empty lines in order, as many of them as there are, repeats included, and nothing else |
| EvaPlaceholder.TrimEach | services/evaPlaceholder.ts:297 | `.map(line => line.trim())` gives one trimmed line per input line, in the same positions |
| EvaPlaceholder.ParseMeditationLines | services/evaPlaceholder.ts:294-299 | Every line is non-empty, trimmed and free of '\n'. The lines are, in order, the trimmed pieces that are non-empty, one for each such piece, so at most (number of '\n') + 1 |
| EvaPlaceholder.ParseJoinedLines | services/evaPlaceholder.ts:294-299 | Non-empty, trimmed, feed-free lines survive a join with '\n' followed by a parse unchanged |
| EvaPlaceholder.ReparseMeditationLines | services/evaPlaceholder.ts:294-299 | Parsing is a fixed point on its own output |
| DailyFlow.Initial | context/DailyFlowContext.tsx:23-25 | All three flags start false |
| DailyFlow.MarkCheckedIn | context/DailyFlowContext.tsx:27-29 | Raises the check-in flag and leaves the other two as they were |
| DailyFlow.MarkReflected | context/DailyFlowContext.tsx:31-33 | Raises the reflection flag and leaves the other two as they were |
| DailyFlow.MarkCompletedZenQuest | context/DailyFlowContext.tsx:35-37 | Raises the Zen-quest flag and leaves the other two as they were |
| DailyFlow.ResetDailyFlow | context/DailyFlowContext.tsx:39-43 | From any state, every flag is false, which is the initial state |
| DailyFlow.Apply | context/DailyFlowContext.tsx:27-43 | A mark raises its own flag and no other; a reset lowers all three |
| DailyFlow.MarkIdempotent | context/DailyFlowContext.tsx:27-37 | Marking a step twice is marking it once |
| DailyFlow.MarksCommute | context/DailyFlowContext.tsx:27-37 | Two marks in either order give the same state |
| DailyFlow.ZenQuestNeedsNoEarlierStep | context/DailyFlowContext.tsx:35-37 | No ordering is enforced: from the start, completing the Zen quest raises its flag while the other two stay down |
| DailyFlow.RunFlag | context/DailyFlowContext.tsx:27-43 | After any sequence of calls, a flag is up exactly when its step was marked after the last reset, or it was up before and there was no reset |
| DailyFlow.FlagsMonotone | context/DailyFlowContext.tsx:27-37 | Without a reset no flag ever goes down |
| DailyFlow.UseDailyFlow | context/DailyFlowContext.tsx:65-70 | Outside a provider the hook yields its error message, never a default state; inside one it yields the provider's state |
| Onboarding.Initial | context/OnboardingContext.tsx:24-27 | Three empty strings, not complete |
| Onboarding.SetArcTitle | context/OnboardingContext.tsx:24 | Stores the title verbatim and leaves the other fields unchanged |
| Onboarding.SetBoss | context/OnboardingContext.tsx:25 | Stores the boss verbatim and leaves the other fields unchanged |
| Onboarding.SetFinalForm | context/OnboardingContext.tsx:26 | Stores the final form verbatim and leaves the other fields unchanged |
| Onboarding.CompleteOnboarding | context/OnboardingContext.tsx:29-31 | Sets the flag and keeps the three strings |
| Onboarding.CompleteIdempotent | context/OnboardingContext.tsx:29-31 | Completing twice is completing once |
| Onboarding.RunComplete | context/OnboardingContext.tsx:27-42 | After any sequence of calls the profile is complete exactly when it was before or the calls completed it, so nothing clears the flag |
| Onboarding.SetAfterComplete | context/OnboardingContext.tsx:33-41 | The setters are not guarded by completion: setting the title after completing still takes effect |
| Onboarding.RunArcTitle | context/OnboardingContext.tsx:24-42 | The last title set wins, or the old one stays when none is set |
| Onboarding.UseOnboarding | context/OnboardingContext.tsx:51-56 | Outside a provider the hook yields its error message; inside one it yields the provider's profile |
| HomeCard.StatusLabel | components/HomeCard.tsx:22-31 | Every status has a non-empty label |
| HomeCard.StatusLabelRoundTrip | components/HomeCard.tsx:22-31 | Reading a label back gives its status: active 'Active', locked 'Locked', completed 'Done' |
| HomeCard.StatusLabelInjective | components/HomeCard.tsx:22-31 | No two statuses share a label |
| HomeCard.Disabled | components/HomeCard.tsx:38 | An absent `disabled` is false |
| HomeCard.IsLocked | components/HomeCard.tsx:41 | The card looks locked exactly when its status is locked or it is disabled |
| HomeCard.IsPressable | components/HomeCard.tsx:52 | The card takes presses exactly when it is not disabled |
| HomeCard.PressableIgnoresStatus | components/HomeCard.tsx:41-52 | Changing the status never changes pressability |
| HomeCard.LockedCardStillPressable | components/HomeCard.tsx:41-52 | A locked card without `disabled` looks locked yet takes presses |
| HomeCard.UnpressableIsLocked | components/HomeCard.tsx:41-52 | A card that takes no presses always looks locked |
| HomeCard.HomeScreenCards | screens/HomeScreen.tsx:38-57 | The home screen shows check-in active and the other two locked, all three pressable |
| ReflectionChat.ReplyIndex | screens/ReflectionChatScreen.tsx:66 | The reply index is always one of the four canned replies |
| ReflectionChat.ReplyIndexIsModulo | screens/ReflectionChatScreen.tsx:66 | The index after k sends is k mod 4, the handler's `% CANNED_EVA_RESPONSES.length` |
| ReflectionChat.CannedReply | screens/ReflectionChatScreen.tsx:66 | Eva's reply is always one of the four canned responses |
| ReflectionChat.CannedReplyIsModulo | screens/ReflectionChatScreen.tsx:63-67 | The reply after k sends is `CANNED_EVA_RESPONSES[k % 4]` |
| ReflectionChat.Initial | screens/ReflectionChatScreen.tsx:27-52 | The chat opens with exactly two Eva messages, an empty box and the counter at 0 |
| ReflectionChat.SetInputText | screens/ReflectionChatScreen.tsx:117-118 | Typing changes only the text box |
| ReflectionChat.HandleSend | screens/ReflectionChatScreen.tsx:54-77 | Blank input changes nothing. Otherwise exactly two messages are appended, the user's trimmed text then `CANNED_EVA_RESPONSES[responseIndex % 4]` from Eva; earlier messages are kept, the counter advances by one and the box is cleared |
| ReflectionChat.InitialIsChatLog | screens/ReflectionChatScreen.tsx:27-52 | The opening state has the log's shape |
| ReflectionChat.AppendExchange | screens/ReflectionChatScreen.tsx:57-71 | Appending a user turn and the next canned reply keeps the log's shape |
| ReflectionChat.HandleSendKeepsChatLog | screens/ReflectionChatScreen.tsx:54-72 | Sending keeps the log's shape: the two openers, then exchange k is a non-empty trimmed user message followed by canned reply k mod 4, with 2 + 2k messages in all |
| ReflectionChat.SetInputTextKeepsChatLog | screens/ReflectionChatScreen.tsx:117-118 | Typing keeps the log's shape |
| ReflectionChat.TypeAndSend | screens/ReflectionChatScreen.tsx:54-72 | One input then Send adds no exchange for a blank input and one exchange otherwise |
| ReflectionChat.TypeAndSendIsHandleSend | screens/ReflectionChatScreen.tsx:54-72 | Typing an input and pressing Send, through the screen's two handlers, is the one-step description: nothing for a blank input, one exchange otherwise |
| ReflectionChat.ConverseAppendsExchanges | screens/ReflectionChatScreen.tsx:40-72 | Over any sequence of inputs, the log gains one exchange per non-blank input, with the trimmed text and the replies in round-robin order from where the counter stood |
| ReflectionChat.ConverseCountsSends | screens/ReflectionChatScreen.tsx:52-69 | The counter advances once per non-blank input |
| ReflectionChat.ConversationLength | screens/ReflectionChatScreen.tsx:49-72 | After n successful sends from the start, the log holds 2 + 2n messages and the counter is n |
| ReflectionChat.RepliesCycle | screens/ReflectionChatScreen.tsx:40-45 | The reply after k + 4 sends is the reply after k sends |
| OnboardingBoss.Options | screens/OnboardingBossScreen.tsx:25-33 | Seven chips, each with a non-empty label |
| OnboardingBoss.Other | screens/OnboardingBossScreen.tsx:32 | 'Other' is the last chip |
| OnboardingBoss.Initial | screens/OnboardingBossScreen.tsx:39-40 | Nothing is selected and the box is empty |
| OnboardingBoss.SelectChip | screens/OnboardingBossScreen.tsx:74-80 | Pressing a chip selects its label and keeps the typed text |
| OnboardingBoss.SetCustomBoss | screens/OnboardingBossScreen.tsx:89-90 | Typing changes only the custom text |
| OnboardingBoss.BossValue | screens/OnboardingBossScreen.tsx:43 | With 'Other' selected, the value is the typed text trimmed; otherwise it is the selection itself |
| OnboardingBoss.Submission | screens/OnboardingBossScreen.tsx:43-44 | A value is submitted only when it is non-null and non-empty |
| OnboardingBoss.HandleNext | screens/OnboardingBossScreen.tsx:42-48 | The handler stores exactly the submission, or leaves the profile unchanged |
| OnboardingBoss.IsValid | screens/OnboardingBossScreen.tsx:50-51 | With 'Other' selected the form is valid exactly when the typed text holds something besides whitespace; with anything else, exactly when a chip is selected |
| OnboardingBoss.InitialSelectionIsChip | screens/OnboardingBossScreen.tsx:39 | The initial selection satisfies the reachable-state invariant (empty or one of the seven chips) |
| OnboardingBoss.EditsKeepSelectionIsChip | screens/OnboardingBossScreen.tsx:74-90 | Pressing chips and typing keep the selection empty or one of the seven chips |
| OnboardingBoss.SubmitsIffValid | screens/OnboardingBossScreen.tsx:43-51 | On reachable states the handler stores a boss exactly when `isValid` holds, and what it stores is never empty |
| OnboardingBoss.ValidityNeedsChipSelection | screens/OnboardingBossScreen.tsx:44-51 | `isValid` alone does not imply a store: an empty selection outside the chips passes it and stores nothing |
| OnboardingBoss.OtherStoresTrimmedText | screens/OnboardingBossScreen.tsx:43-45 | With 'Other' selected and a valid form, the stored boss is the typed text trimmed |
| OnboardingBoss.ChipStoresLabel | screens/OnboardingBossScreen.tsx:43-45 | With any other chip selected, its label is stored verbatim and the typed text is ignored |
| OnboardingArcTitle.IsValid | screens/OnboardingArcTitleScreen.tsx:35 | A title is valid exactly when it holds something besides whitespace |
| OnboardingArcTitle.HandleNext | screens/OnboardingArcTitleScreen.tsx:30-35 | The stored title is exactly the trimmed title, so it has no surrounding whitespace and is empty exactly when the title is not valid, that is all whitespace; the rest of the profile is untouched |
| OnboardingArcTitle.StoredTitleIsFixed | screens/OnboardingArcTitleScreen.tsx:31 | The stored title is its own trim, so pressing Next again stores the same thing |
| OnboardingArcTitle.StoredTitleFromTyped | screens/OnboardingArcTitleScreen.tsx:31 | Every unit of the stored title was typed |
| OnboardingArcTitle.BlankTitleStoresEmpty | screens/OnboardingArcTitleScreen.tsx:30-35 | A blank title is stored as the empty string, which the engine reads as 'Your Journey' |
| OnboardingArcTitle.SpaceTitleDiscrepancy | screens/OnboardingArcTitleScreen.tsx:30-35 | A one-space title is stored as the empty string, where the intended screen would not fire |
| OnboardingArcTitle.IntendedNext | screens/OnboardingArcTitleScreen.tsx:30-35 | The intended Next fires exactly when the title is valid, and then stores the trimmed, non-empty title |

## Left out

- `String.replace` replacement patterns (`$&`, `$$`, …) are not modelled. Context values are required to contain no `$` (`EvaPlaceholder.NoDollar`).
- `Interpolate`, `Reply`, `InitialReflectionMessages`, `ZenQuestMeditation`: these require `NoDollar`, because of the previous item.
- Case mapping is ASCII only. Unicode and locale-specific `toUpperCase`/`toLowerCase` is not modelled.
- `generateZenQuestMeditation` accepts an undefined arc title (`arcTitle?.length || 0`). The model's context always holds a string, and the empty string behaves the same way.
- Template literals outside the Basic Multilingual Plane would need surrogate pairs. None exist, and `Units` assumes this (`UnitsIsUtf16`).
- Message ids (`Date.now()`) and the delayed scroll in the chat are left out. They are a clock and a UI side effect.
- The chat box's `maxLength={500}` is left out. It is enforced by the native input, not by the handler.
- Layout, styles, animation, navigation calls and the navigators are left out. They are presentation and framework wiring.
- Provider mounting and React's update batching are left out. The model has each hook either find a provider or not.
- The float-valued rendering maths is left out, because it works on JavaScript numbers used only for drawing: the progress bar clamps its value to 0-100 (components/ProgressBar.tsx:12), and the mood graph colours a bar by thresholds at 40 and 70 (components/MoodGraphPlaceholder.tsx:43-44). The static screens and components are left out too. They contain no logic.
- `EvaPlaceholder.FormatMoodIdempotent`: stated for non-empty moods only. The empty mood formats to 'present' and then to 'Present' (`EvaPlaceholder.EmptyMoodFormatsTwiceDifferently`), so a default mood and a typed 'present' are shown differently.
- `HomeCard.StatusLabel`: its own contract only says the label is non-empty. The exact labels and their distinctness are in `HomeCard.StatusLabelRoundTrip`.

## Findings

| source | as written | input that shows it | evidently intended | confidence | as-written member | corrected member |
|---|---|---|---|---|---|---|
| screens/OnboardingArcTitleScreen.tsx:30-35 | `handleNext` stores `title.trim()` unconditionally. The `disabled={!isValid}` passed to `PrimaryButton` is ignored because that component takes no `disabled` prop (components/PrimaryButton.tsx:11-17) | a title of one space: Next stores the empty arc title and moves on | Next does nothing while the title is blank | medium, not executed | OnboardingArcTitle.SpaceTitleDiscrepancy | OnboardingArcTitle.IntendedNext |
