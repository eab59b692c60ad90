# Solana deposit watcher — verified model of its core

The watcher reads a flat `key=value` configuration file and refuses to start
unless the four settings it needs are present and non-empty. For each
transaction signature the listener hands to the handler, it then:

- fetches the parsed transaction from the indexer;
- decides whether the wallet received native SOL or a token, skipping entries
  the wallet sent itself;
- prices the received asset in dollars;
- sends a chat notification when the value is at least $280.

This project models that core in Dafny:

- `wrappers.dfy`: `Option` and `Result`.
- `text.dfy` (module `Text`): Python's `str.strip()`, including the full
  `str.isspace()` character set, and `str.split('=', 1)` followed by a
  two-way unpack.
- `config.dfy` (module `Config`):
  - The file reader is a method with a loop, `LoadConfig`. It is proved equal
    to a specification, `ReadConfig`, which classifies each line and then
    collects the entries into a map.
  - The required-key check is a function, `Validate`, and `Startup` chains
    the two.
- `classifier.dfy` (module `Classifier`):
  - The two first-match scans over native and token transfers are a method,
    `ClassifyReceived`. It is proved equal to the recursive specification
    `Received`.
  - Lemmas characterise `Received` by its first qualifying index.
- `watcher.dfy` (module `Watcher`):
  - The handling of one signature is a method, `ProcessTransaction`. It is
    proved equal to the function `Assess`.
  - Assess covers the fetch, the classification, the price lookup, the $280
    threshold, the ticker choice and the explorer link.
  - Indexer answers are an input record, `Provider`, with three maps: one
    each for transactions, prices and token metadata. A signature or mint
    absent from the transaction or price map stands for a call that failed or
    returned nothing. A mint absent from the metadata map stands for a lookup
    that failed; an empty metadata answer is the value `None`.

The code splits each configuration line on the first `=` only, so `A=b=c`
sets `A` to `b=c`; `SplitAtFirst` models that split.

## Model

| member | source | states |
|---|---|---|
| Text.Trim | main.py:14 | the stripped line has no leading or trailing whitespace (Python's `isspace` set) and is no longer than the input |
| Text.TrimSurrounded | main.py:14 | the input is the stripped text with only whitespace before and after it |
| Text.TrimOfTrimmed | main.py:14 | a string without surrounding whitespace is left unchanged by stripping |
| Text.TrimIdempotent | main.py:14 | stripping an already stripped string changes nothing |
| Text.TrimKeepsAbsent | main.py:14 | stripping never introduces a character |
| Text.FindFirst | main.py:16 | returns no index exactly when the character is absent; otherwise returns the index of its first occurrence |
| Text.SplitAtFirst | main.py:16 | no pair exactly when `=` is absent (the unpack fails); otherwise the line is head + `=` + tail, and the head holds no `=` |
| Text.SplitAtFirstJoin | main.py:16 | splitting `head=tail` when the head has no `=` returns exactly head and tail, even when the tail contains `=` |
| Config.ClassifyLine | main.py:14-17 | what one raw line contributes: skipped when blank or a `#` comment after stripping, malformed when it has no `=`, otherwise the entry with the stripped text on either side of the first `=`; its properties are `ClassifyLineEntryShape`, `ClassifyLineOfEntry` and `ParseLinesOutcome` |
| Config.ClassifyLineEntryShape | main.py:14-17 | a stored key holds no `=`, and stored keys and values carry no surrounding whitespace |
| Config.ClassifyLineOfEntry | main.py:14-17 | round trip: writing a stripped, `=`-free key that does not start with `#` and a stripped value as `key=value` reads back as that entry |
| Config.Collect | main.py:13-17 | the reference fold over classified lines: skipped lines keep the map, entries overwrite their key, and the first malformed line aborts with its index; characterised by `CollectSucceedsIff`, `CollectErrorIsFirstMalformed`, `CollectKeys` and `CollectLastWins` |
| Config.ParseLines | main.py:13-18 | reading an existing file: every line classified, then collected |
| Config.ReadConfig | main.py:9-22 | the reference reader: a missing file is `ConfigNotFound`, otherwise `ParseLines`; `LoadConfig` is proved equal to it |
| Config.LoadConfig | main.py:9-22 | the line-by-line loop with in-place map updates returns exactly `ReadConfig`: a missing file is `ConfigNotFound`, and the first line without `=` aborts the read |
| Config.CollectErrorPersists | main.py:16 | once a line fails to unpack, the later lines do not change the outcome |
| Config.CollectSucceedsIff | main.py:15-17 | collecting classified lines succeeds exactly when none of them is malformed |
| Config.CollectErrorIsFirstMalformed | main.py:16 | a failed collection reports the index of the first malformed line |
| Config.CollectKeys | main.py:17 | a key is in the map exactly when some line is an entry for it |
| Config.CollectLastWins | main.py:17 | a repeated key keeps the value from its last entry |
| Config.ParseLinesOutcome | main.py:13-18 | reading a file succeeds exactly when no non-blank, non-comment line lacks `=`; otherwise the error names the first such line |
| Config.ParseLinesKeys | main.py:13-17 | the map's keys are exactly the stripped keys of the file's entry lines |
| Config.ParseLinesLastWins | main.py:13-17 | a key's value in the map comes from the last line that sets it |
| Config.Validate | main.py:25-36 | the settings are accepted exactly when all four required keys are present and non-empty, and then hold those four values |
| Config.Startup | main.py:24-36 | a missing file gives `ConfigNotFound`, a failed read gives its error unchanged, a file that reads gives exactly `Validate` of its map (so `ConfigIncomplete` when a required key is missing or empty), and start-up succeeds exactly when the file is read and all four required keys are given non-empty values |
| Config.StartupFailsOnMissingKey | main.py:24-36 | if no line sets a required key, start-up fails |
| Config.StartupFailsOnEmptyLastValue | main.py:13-36 | if the last line setting a required key leaves it empty, start-up fails even when an earlier line gave it a value |
| Classifier.LamportsToSol | main.py:70 | the SOL amount times 10^9 equals the lamport count |
| Classifier.IsReceipt | main.py:67-79 | the qualifying test of both scans: an entry pays the wallet and was not sent by it; `OwnSendsIgnored` and `SelfTransfersNeverNotify` rest on it |
| Classifier.FirstNativeReceipt | main.py:66-74 | the reference native scan: the asset of the first native entry that qualifies, or nothing; characterised by `FirstNativeReceiptIsFirst`, `FirstNativeReceiptNone` and `OwnSendsIgnored` |
| Classifier.FirstTokenReceipt | main.py:78-89 | the reference token scan: the amount and mint of the first token entry that qualifies, or nothing; characterised by `FirstTokenReceiptIsFirst`, `FirstTokenReceiptNone` and `OwnSendsIgnored` |
| Classifier.Received | main.py:62-94 | the reference classification: the first native receipt if there is one, otherwise the first token receipt; characterised by `ReceivedNative`, `ReceivedToken`, `ReceivedNone` and `OwnSendsIgnored` |
| Classifier.ClassifyReceived | main.py:62-94 | the two loops find exactly `Received`: natives first, tokens only when no native entry qualifies, first match in each scan |
| Classifier.FirstNativeReceiptIsFirst | main.py:66-74 | the native scan returns the entry at the first index that pays the wallet from another account |
| Classifier.FirstNativeReceiptNone | main.py:66-67 | the native scan finds nothing exactly when no native entry qualifies |
| Classifier.FirstTokenReceiptIsFirst | main.py:78-89 | the token scan returns the first qualifying entry's amount and mint |
| Classifier.FirstTokenReceiptNone | main.py:78-79 | the token scan finds nothing exactly when no token entry qualifies |
| Classifier.ReceivedNative | main.py:66-74 | a qualifying native entry decides the result (SOL, lamports/10^9, the native mint), whatever the token entries are |
| Classifier.ReceivedToken | main.py:77-89 | without a qualifying native entry, the first qualifying token entry decides, with its amount and mint unchanged |
| Classifier.ReceivedNone | main.py:91-94 | nothing is received exactly when no entry of either kind pays the wallet from another account |
| Classifier.OwnSendsIgnored | main.py:67-79 | removing every entry the wallet sent leaves the classification unchanged |
| Watcher.ExplorerLink | main.py:120 | the link is the explorer prefix followed by the signature, and nothing else |
| Watcher.ExplorerLinkInjective | main.py:120 | different signatures get different links |
| Watcher.Ticker | main.py:113-117 | a ticker other than "SOL" only comes from the first metadata record of a received token, and a token whose lookup returned a record gets that record's symbol |
| Watcher.Assess | main.py:54-129 | the reference handling of one signature as an `Outcome`; characterised by `AssessNotifiesIff`, `AssessNotification`, `AssessNoPrice`, `AssessNoMetadata` and `SelfTransfersNeverNotify` |
| Watcher.ProcessTransaction | main.py:54-129 | the handler returns exactly `Assess`: no transaction, nothing received, no price, below threshold, failed metadata lookup, or a notification |
| Watcher.AssessNotifiesIff | main.py:57-118 | a notification is produced exactly when the transaction is fetched, an asset is received and priced, amount times price is at least 280 (equality notifies), and a token's metadata lookup answers |
| Watcher.AssessNotification | main.py:103-126 | the notification carries the configured chat, the dollar value (at least 280), the received amount, and the link for the signature; its ticker is "SOL" for SOL, and for a token it is the first metadata record's symbol, or "SOL" when the lookup returns no record |
| Watcher.AssessNoPrice | main.py:98-101 | a received asset without a price is dropped before any comparison |
| Watcher.AssessNoMetadata | main.py:114-132 | a token worth reporting whose metadata lookup fails produces no message |
| Watcher.SelfTransfersNeverNotify | main.py:66-94 | a transaction whose only payments to the wallet come from the wallet itself never notifies |
| Watcher.SmallNativeReceiptIsQuiet | main.py:104-129 | 2.5 SOL at $0.12 is worth $0.30 and is not reported |
| Watcher.LargeTokenReceiptNotifies | main.py:104-126 | 1000 tokens at $0.35 are worth $350 and are reported with the token's symbol and the transaction link |
| Watcher.LargeNativeReceiptNotifies | main.py:104-126 | 3 SOL at $100 is worth $300 and is reported as "SOL" without a metadata lookup |

## Left out

- The websocket listener (the account subscription, the receive loop that sleeps 5 seconds after an error, scheduling one task per signature) is network I/O and concurrency. Each signature it extracts is an input to `ProcessTransaction`.
- The extraction of the signature from an account-subscription frame, and the handling of frames without a transaction, are not modelled. They belong to the listener.
- The indexer client's calls (`get_transaction`, `get_price`, `get_token_metadata`) are foreign network calls. Their answers are the maps of `Provider`. A call that raises is a missing key; an empty answer is a missing key for transactions and prices and `None` for metadata.
  - For transactions and prices, a raise and an empty answer end the handling the same way.
  - For metadata they differ: a raise is `NoMetadata`, and an empty answer is `None`, which falls back to "SOL".
- Sending the chat message, and what happens when it fails, are network I/O. The model stops at the `Notification` value.
- Opening and decoding the file is file I/O. `LoadConfig` takes the file as its sequence of lines (`None` when the file does not exist). Newline translation and UTF-8 decoding, including a byte-order mark kept in the first key, are outside the model.
- Console output, the wait for Enter, and `exit()` on both start-up errors are interactive I/O. These paths are the `Err` results of `LoadConfig` and `Validate`.
- An error other than a missing file (permission denied, a decoding error) is not modelled. Such an error would propagate uncaught out of the reader.
- The `decimals` value computed in the token branch is never used afterwards. It has no effect on behaviour as long as the indexer reports `token_standard` as a string, which `TokenTransfer.tokenStandard: string` assumes. A non-string value would raise while `decimals` is computed, and the handler would then drop the token notification and print the error; the model does not capture that path.
- Classifier.LamportsToSol: uses exact real division, not the binary floating-point division of the source. A value right at the $280 boundary can therefore compare differently than under floating-point rounding.
- Watcher.ProcessTransaction: multiplies amount and price exactly, not in floating point, for the same reason.
- The text layout of the chat message (Markdown, thousands separators, two-decimal rounding) is float formatting. `Notification` keeps the numbers it shows as values.
