# Password generator prompt — Dafny model

The repository is a command-line password-generator prompt written as a single
JavaScript file, `index.js`. The program shows a panel of options, then reads
one line at a time. It stops when the line is an exit keyword. It also
defines a builder for the character pool a password would be drawn from, but
nothing calls it, and no password is ever generated.

This project models the three parts of that file that carry logic:

- **`CharacterPool`** (`pool.dfy`): the three constant alphabets and the pool
  builder. The builder concatenates the enabled alphabets in a fixed order:
  52 letters, then 10 digits, then 12 symbols. The model proves:
  - the pool's exact length;
  - the pool is empty exactly when every toggle is off;
  - a character is in the pool exactly when it belongs to an enabled class;
  - no character occurs twice;
  - letters come before digits, and digits before symbols.
- **`ExitKeywords`** (`exit_keywords.dfy`): the exit-keyword recogniser. A
  response is lower-cased and looked up in a list of eleven words. The model
  proves that this is the same as equality with one of the words up to letter
  case. It also proves that a response holding a space is never accepted,
  because the source does no trimming.
- **`PasswordSession`** (`session.dfy`): the session record, written as a
  class `Session`. It holds the mutable `isUserFinished` flag and the six
  options. `Session.Run` is the prompt loop. It is proved to stop right after
  the first exit code and to read exactly that many responses. It never
  changes the options, and the flag only goes from false to true.
  `RunSession` is the program's entry: a fresh session runs its loop.

The responses the user types are given as a `seq<string>`. If the sequence
runs out before an exit code appears, the model's loop stops with the flag
still false. The real program would instead keep waiting for more input.

The program does not trim its input or remove repeated characters from the
pool. It has no password generation, option commands or help topics, and the
model has none either. In particular, `" exit"` is not an exit code
(`ExitKeywords.SpaceRejected`).

## Model

| member | source | states |
|---|---|---|
| `CharacterPool.Pool` | index.js:17-22 | The pool has length 52·[alphabet] + 10·[numbers] + 12·[symbols]. It is empty exactly when all three toggles are off. A character is in it exactly when it is a letter with alphabet on, a digit with numbers on, or one of the twelve symbols with symbols on. |
| `CharacterPool.PoolDistinct` | index.js:17-22 | For every combination of toggles, no character occurs twice in the pool. |
| `CharacterPool.PoolBlocksOrdered` | index.js:18-21 | In the pool, every letter precedes every digit, and every digit precedes every symbol, so no enabled block is reordered or interleaved. |
| `CharacterPool.AlphabeticalIsLetters` | index.js:7-9 | The alphabetical constant has 52 characters, all different. They are exactly the ASCII letters A–Z and a–z. |
| `CharacterPool.NumericalIsDigits` | index.js:10 | The numerical constant has 10 characters, all different. They are exactly the digits 0–9. |
| `CharacterPool.SymbolsAreSymbols` | index.js:11 | The symbol constant has 12 characters, all different. They are exactly the twelve curated punctuation characters. |
| `CharacterPool.ClassesDisjoint` | index.js:7-11 | No character is in two of the three classes (letters, digits, symbols). |
| `ExitKeywords.LowerChar` | index.js:33 | An ASCII capital maps to the small letter 32 code points above it. Every other character is unchanged. |
| `ExitKeywords.ToLower` | index.js:33 | Lower-casing keeps the length and lower-cases each character in place. |
| `ExitKeywords.ToLowerOfLowerCase` | index.js:33 | The result of lower-casing has no capital letter. A string without capitals is left unchanged. |
| `ExitKeywords.ToLowerIdempotent` | index.js:33 | Lower-casing twice gives the same string as lower-casing once. |
| `ExitKeywords.ExitCodesLowerCase` | index.js:13 | Every one of the eleven exit codes is written in lower case. |
| `ExitKeywords.ExitCodesHaveNoSpace` | index.js:13 | No exit code contains a space. |
| `ExitKeywords.IsExitCode` | index.js:32-34 | A response is an exit code if and only if it equals one of the eleven exit codes up to the case of its letters. |
| `ExitKeywords.IsExitCodeCaseInsensitive` | index.js:32-34 | Two responses that agree up to letter case are either both exit codes or both not. |
| `ExitKeywords.UpperCaseAccepted` | index.js:32-34 | "QUIT", "Exit" and "Q" are accepted. |
| `ExitKeywords.SpaceRejected` | index.js:32-34 | A response with a space at any position is rejected, including " exit" and "exit ", because there is no trimming. |
| `ExitKeywords.EmptyRejected` | index.js:32-34 | The empty response is not an exit code. |
| `PasswordSession.PromptCount` | index.js:124-136 | The number of responses the loop reads is never more than the number available. |
| `PasswordSession.PromptCountAtFirstExit` | index.js:124-136 | Suppose response i is an exit code and no earlier one is. Then the loop reads exactly i + 1 responses. |
| `PasswordSession.PromptCountWithoutExit` | index.js:124-136 | When no response is an exit code, the loop reads every response. |
| `PasswordSession.Session.constructor` | index.js:43-72 | A new session is not finished. Its options are Length 24, DisplayPassword false, CopyToClipboard true, and Alphabet, Numbers and Symbols all true. |
| `PasswordSession.Session.Run` | index.js:123-139 | The loop only writes the flag, so the options are unchanged, and a flag that was set stays set. From an unfinished session, the flag ends up set exactly when some response is an exit code. The number of responses read is the count up to and including the first exit code. When the flag is set, the last response read is an exit code and none before it is. |
| `PasswordSession.RunSession` | index.js:123-141 | A fresh session ends exactly when some response is an exit code. When it ends, it has read the responses up to and including the first exit code. No earlier response is an exit code. Otherwise it has read all of them. |

## Left out

- Reading from standard input (`readline`, the promise around `reader.question`, `async`/`await`) and closing the reader. The responses are a `seq<string>` parameter instead.
- PasswordSession.Session.Run: stops when the response sequence is exhausted. The real program would keep waiting for another line; the model cannot represent that.
- All console output and styling: the title, options and toggles panels, the greeting echo and the farewell line. These are presentation only.
- `yesNoString`: a presentation helper. Its only branch beyond formatting is a run-time type check on a dynamically typed value, which the typed model makes impossible.
- ExitKeywords.ToLower: lower-cases ASCII letters only; JavaScript's `toLowerCase` follows full Unicode. For the exit-code question this makes no difference. The keywords are ASCII, and no non-ASCII character lower-cases to a single ASCII letter used in them.
- The program uses UTF-16 strings; the model uses Dafny's `string` of Unicode characters. Every constant involved is ASCII.
- Password generation, option commands, help topics and the clipboard do not exist in the source and are not modelled.
