# Vault of locks: a Dafny model of the room controller

The "vault of locks" is a children's puzzle room. Twelve locks hang on a
vault door: three key locks, four locks whose puzzle comes from a
generative-AI service, and five interaction locks (a ten-tap counter, a
four-digit code, four switches, and two plain "touch" locks). The player
opens each lock's detail view, solves it, and once every lock is open the
game moves to the victory screen with a generated picture.

This project models the controller of that room, the `App` component of
`App.tsx`, in four modules:

- `Locks` (Locks.dfy): the lock categories as a closed datatype with its
  three groups, the fixed twelve-lock configuration, the update that opens
  one lock by id, the "every lock is open" test, and lemmas about unlocking
  in any order.
- `Answers` (Answers.dfy): the answer comparison of the AI locks. Both
  texts are lower-cased and then trimmed, and must then be equal. Trimming
  uses ECMAScript's white-space and line-terminator set.
- `Widgets` (Widgets.dfy): the three deterministic interaction locks, each
  a pure step from the shared input text to "unlock" or "store this text".
  These are the tap counter (with the decimal text it writes and reads
  back), the code "1234", and the switch string.
- `Vault` (Vault.dfy): the class `VaultSession`. Its fields are the
  component's state: `gameState`, `locks`, `activeLock`, `activePuzzle`,
  `loading`, `input`, `victoryImg`, `msg` and `foundItems`. It has one
  method per user action. `Valid()` is the session invariant: the lock
  list keeps its configuration and only statuses change; no request is in
  flight between steps; VICTORY is shown exactly when every lock is open;
  the detail view always belongs to a closed lock; and the shared input
  holds only text the active lock's widget could have written.

The generator service is an oracle. `OpenLockDetail` takes
`reply: Option<Puzzle>`, where `None` is a thrown generation error.
`Unlock` and the handlers that call it take `image: Option<string>`, where
`None` is a missing victory picture. Each handler is one atomic step. The
effect that watches the lock list runs inside `Unlock`: after every
unlock, an open vault moves to VICTORY.

Each handler method `requires` the screen on which the page renders its
control. The lock buttons and the item buttons exist only in the room
(EXPLORING). The answer box exists only in an AI lock's detail view, and
"Use Key" only in a key lock's detail view once its key has been found.
The tap button, the code field and the switches exist only in their own
lock's detail view. Two conditions inside handlers are not preconditions,
because the handler itself tests them: `checkAnswer` returns without effect
when no puzzle is loaded, and `openLockDetail` returns without effect on an
open lock. The model keeps both tests (`Vault.VaultSession.CheckAnswer`,
`Vault.VaultSession.OpenLockDetail`).

Opening a key lock is gated by its item. `Vault.KeyLocksGated` says that
every key lock opened by a step asks for an item that is found.
`Vault.VaultSession.UnlockActive` is the only way the handlers unlock, and
every handler that can open a lock promises it.

Types that the program's `types.ts` does not declare are defined here from
their use in `App.tsx`. These are `Lock`, `LockStatus`, `LockCategory`,
`Puzzle` (the program's `AIPuzzle`) and the room's three-valued
`GameState`. The `GameState` enumeration in `types.ts` belongs to the quest
game.

When the generator fails, `openLockDetail` leaves the game state as it was
and only sets the failure message (`Vault.VaultSession.OpenLockDetail`). The lock's `label` field is
called `glyph` here, because `label` is a Dafny keyword.

## Model

| member | source | states |
|---|---|---|
| `Locks.AiGroupIsPrefixTest` | App.tsx:59 | a category is in the AI group exactly when its name starts with "AI_", the string test the program dispatches on |
| `Locks.KeyLock` | App.tsx:146-166 | each of the three found items belongs to a key lock |
| `Locks.KeyFor` | App.tsx:143-168 | a category asks for a found item exactly when it is one of the three key locks, and the item it asks for is the one whose lock it is (KEY_RED the red key, KEY_BLUE the blue key, KEY_GREEN the green key) |
| `Locks.KeyForKeyLock` | App.tsx:143-168 | each item is asked for by its own lock and by no other lock |
| `Locks.InitialLocks` | App.tsx:7-24 | the vault starts with twelve locks, ids 1 to 12 in order, twelve distinct categories, all LOCKED |
| `Locks.ConfigEntry` | App.tsx:7-20 | entry i of the configuration is the lock with id i + 1 |
| `Locks.AllUnlocked` | App.tsx:40 | the victory test `locks.every(...)`: every lock is open; on such a list unlocking any id changes nothing, so the test stays true |
| `Locks.UnlockById` | App.tsx:76 | the lock with the given id becomes UNLOCKED; every other lock is unchanged; length, order and each lock's id, category, colour and label are kept |
| `Locks.UnlockNeverRelocks` | App.tsx:75-79 | unlocking never turns an UNLOCKED lock back to LOCKED |
| `Locks.UnlockIdempotent` | App.tsx:76 | unlocking the same id twice is the same as unlocking it once |
| `Locks.UnlockCommutes` | App.tsx:76 | two unlocks give the same list in either order |
| `Locks.UnlockEach` | App.tsx:75-79 | a run of unlocks keeps the list's length and each lock's identity |
| `Locks.UnlockEachStatus` | App.tsx:75-79 | after a run of unlocks a lock is open exactly when it was already open or its id was unlocked |
| `Locks.UnlockInAnyOrder` | App.tsx:39-43 | a run of unlocks, in any order, makes every lock open exactly when it names every lock that was still closed |
| `Locks.VaultOpensInAnyOrder` | App.tsx:39-43 | from the start, a run of unlocks opens the whole vault exactly when it names each of the ids 1 to 12, in any order and with any repetitions |
| `Answers.Lower` | App.tsx:83 | lower-casing keeps the length, leaves no capital A to Z, keeps every other character, and maps each capital to the letter 32 code points above it |
| `Answers.SkipSpaces` | App.tsx:83 | the scan trim uses for the start stops at the first non-space character (or the end), after only white space |
| `Answers.BackSpaces` | App.tsx:83 | the scan trim uses for the end stops just after the last non-space character (or at the start), with only white space after it |
| `Answers.Trim` | App.tsx:83 | the trimmed text has no white space at either end and is no longer than the original |
| `Answers.SpaceSlice` | App.tsx:83 | a run of white-space characters in a text is a white-space text |
| `Answers.TrimSplits` | App.tsx:83 | every text is some white space, then its trimmed form, then some white space |
| `Answers.TrimUnique` | App.tsx:83 | trimming a core padded with white space gives exactly that core, when the core has no white space at its ends |
| `Answers.TrimIdempotent` | App.tsx:83 | trimming twice is trimming once |
| `Answers.TrimPadding` | App.tsx:83 | white space added around a text does not change its trimmed form |
| `Answers.AllSpaceConcat` | App.tsx:83 | two white-space texts joined are white space |
| `Answers.LowerConcat` | App.tsx:83 | lower-casing distributes over concatenation and leaves white space alone |
| `Answers.LowerKeepsTrimmed` | App.tsx:83 | lower-casing a text without white space at its ends gives a text without white space at its ends |
| `Answers.LowerTrimCommute` | App.tsx:83 | lower-casing then trimming, as the answer check does, gives the same text as trimming then lower-casing |
| `Answers.MatchesPaddedAnyCase` | App.tsx:83 | an input equal to the answer up to ASCII case, with any white space around it, is accepted |
| `Answers.NoMatchOnDifferentCore` | App.tsx:83 | an input whose lower-cased core differs from the answer's trimmed lower-cased form is rejected, whatever white space surrounds it |
| `Answers.ParisExample` | App.tsx:83 | " Paris " is accepted for the answer "paris" |
| `Widgets.DigitChar` | App.tsx:199 | the character written for a digit value is a decimal digit |
| `Widgets.DigitValue` | App.tsx:197 | a digit character's value is below ten and is written back as that character |
| `Widgets.NatToString` | App.tsx:199 | the decimal text of a count is non-empty and made of digits |
| `Widgets.Pow10` | App.tsx:197 | the place value of a digit position, at least 1; the helper behind the bound that `DecimalValue` states |
| `Widgets.DecimalValue` | App.tsx:197 | the value read from a digit text of length n is below 10 to the n |
| `Widgets.ShownCount` | App.tsx:197 | the count read from the input (parseInt of the input or "0") is 0 for the empty input and a single digit's own value for a one-digit input |
| `Widgets.DecimalRoundTrip` | App.tsx:197-199 | reading back the decimal text of a count gives the count |
| `Widgets.ClickStep` | App.tsx:196-199 | a tap opens the lock exactly when the shown count plus one reaches 10; otherwise the stored text shows the count plus one, and a counter text stays a counter text |
| `Widgets.ClickAfter` | App.tsx:57 | the state after some taps on a freshly cleared input, when still closed, is a digit text |
| `Widgets.ClickOpensAtTen` | App.tsx:194-199 | taps 1 to 9 leave the lock closed with the text showing the tap count; the lock is open after exactly 10 or more taps and never before |
| `Widgets.CodeStep` | App.tsx:215-218 | a value opens the code lock exactly when it is "1234"; any other value is stored unchanged |
| `Widgets.SwitchChar` | App.tsx:225 | switch k is written as the k-th character of "1234" |
| `Widgets.FirstIndex` | App.tsx:229 | the position found holds the character, and no earlier position does |
| `Widgets.RemoveFirst` | App.tsx:229 | replacing a one-character pattern by nothing cuts out the first copy of the character and keeps the rest in order; a text without the character is left alone |
| `Widgets.CutOne` | App.tsx:229 | cutting out one position takes exactly one copy of its character out of the text's multiset |
| `Widgets.ToggleNext` | App.tsx:229 | a press takes one copy of the switch character out when present and adds one otherwise |
| `Widgets.ToggleFlipsOne` | App.tsx:229 | a press on switch k flips switch k and no other, and keeps the text a set of distinct switch characters |
| `Widgets.ToggleFullIffAllOn` | App.tsx:230 | a switch text is at most four long, and four long exactly when all four switches are on |
| `Widgets.PressKeepsToggleInput` | App.tsx:229-230 | after a press the new text is still a switch text, and it is four long exactly when every switch is on |
| `Widgets.FlipStep` | App.tsx:228-231 | a press opens the lock exactly when all four switches are on afterwards; otherwise the new text is stored, and it never has four switches on |
| `Vault.FoundItems.With` | App.tsx:115 | finding an item sets that item's flag and leaves the other flags as they were |
| `Vault.VaultSession.constructor` | App.tsx:23-37 | the session starts exploring, with the twelve configured locks closed, nothing active, empty input, no image, the welcome message and no items found |
| `Vault.VaultSession.HandleVictory` | App.tsx:45-51 | the victory step stores the generator's image, even a missing one, and always enters VICTORY, with loading back to false |
| `Vault.VaultSession.Unlock` | App.tsx:39-51 | opens exactly the lock with the given id; no lock closes; the session returns to EXPLORING with the success message, or enters VICTORY with the generated image when every lock is now open |
| `Vault.UnlockIsGated` | App.tsx:75-79 | unlocking a lock of the configured vault by its id opens no key lock other than that one, so when its item is found (or it asks for none) every key lock it opens has its item |
| `Vault.VaultSession.UnlockActive` | App.tsx:75-79 | unlocking the active lock of a detail view opens exactly that lock, returns to EXPLORING with the success message or enters VICTORY with the image, keeps the invariant, and opens no key lock whose item is missing |
| `Vault.VaultSession.OpenLockDetail` | App.tsx:53-73 | offered in the room only. An open lock changes nothing. A closed lock becomes active with a cleared input. A non-AI lock enters PUZZLE_DETAIL. An AI lock enters it with the fetched puzzle, or on failure keeps the game state and only sets the failure message. Loading always ends false |
| `Vault.VaultSession.CheckAnswer` | App.tsx:81-88 | offered in an AI lock's detail view only. With no puzzle loaded nothing changes. Otherwise the active lock opens exactly when the input matches the answer, with the success message and, on the last lock, VICTORY and the image; a wrong answer only sets the retry message |
| `Vault.VaultSession.TypeAnswer` | App.tsx:175-181 | typing into the answer box replaces the input |
| `Vault.VaultSession.ApplyOutcome` | App.tsx:198-199 | a widget's outcome either unlocks the active lock (success message; VICTORY and the image on the last lock) or stores the new text in the input, leaving locks, screen, message and image as they were |
| `Vault.VaultSession.TapClick` | App.tsx:196-199 | a tap unlocks the active lock exactly when the shown count plus one reaches 10; otherwise only the input changes, to the decimal text of the count plus one |
| `Vault.VaultSession.TypeCode` | App.tsx:215-218 | the value "1234" unlocks the active lock; any other value is only stored in the input, and message and image stay as they were |
| `Vault.VaultSession.FlipSwitch` | App.tsx:228-231 | a press unlocks the active lock exactly when it turns all four switches on; otherwise only the input changes, to the toggled text |
| `Vault.VaultSession.UseKey` | App.tsx:143-168 | "Use Key", offered only once the matching item is found, unlocks the active key lock, and no key lock opens without its item |
| `Vault.VaultSession.UnsealLock` | App.tsx:241-245 | the catch-all button unlocks the active lock of a category without a dedicated widget, with the same resulting state as any unlock |
| `Vault.VaultSession.FindItem` | App.tsx:113-132 | the first press on an item sets its flag and the "found" message; a second press changes nothing; flags only go from false to true |
| `Vault.VaultSession.BackToRoom` | App.tsx:248 | "Back to room" returns to EXPLORING without changing any lock |

## Left out

- `services/geminiService.ts` is not part of this model beyond its results: the prompts, the network calls, `JSON.parse` of the reply and the API key. A puzzle request is a parameter that holds a puzzle or a failure. An image request is a parameter that holds a text or nothing. Building the `data:` URI is not modelled.
- Rendering is not modelled: the JSX and CSS, the loading overlay, `components/Character.tsx` and `components/QuestCard.tsx`. The "Play Again" reload (App.tsx:260) is not modelled either.
- The async machinery is not modelled. There is no `async`/`await` and no `useEffect` scheduling. Each handler is one atomic step, and the victory effect runs inside it right after the unlock. So `loading` is false between steps, and the model shows no interleaving of two outstanding requests.
- The quest trivia game is not modelled: `types.ts` Subject, Quest and PlayerStats, and its score and level rules. Its controller is not among these files.
- Answers.Lower: lower-cases the ASCII letters A to Z only. Full Unicode `toLowerCase` (other scripts, multi-character mappings) is not modelled.
- Widgets.ClickStep: reads the count only from texts made of decimal digits. `parseInt` on other texts (a sign, a trailing non-digit, NaN) is not modelled. The session invariant shows the click lock's input is only ever "" or a digit from 1 to 9.
- Vault.VaultSession.CheckAnswer: requires an active lock instead of testing for one, because the answer box is drawn only inside a lock's detail view (App.tsx:170), so the handler's `!activeLock` return cannot be reached from the page.
- Vault.VaultSession.TypeCode: does not model the `maxLength={4}` limit of the code field (App.tsx:213). That limit is enforced by the page, not the handler, so any value is accepted.
- The puzzle's question and hint are carried in `Puzzle` but play no part in any step; only the answer is compared.
