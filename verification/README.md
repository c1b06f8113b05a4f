# Sentinel slice: a verified model

The system takes orders from AI agents. A *cashier* checks each order in six steps and signs a
ticket; a *chef* executes the ticket in a sandbox; an order, served or refused, leaves one signed
receipt in a hash chain, unless an exception ends its call first. Around that pipeline stand a
personal permission gate, a JSON counter, two standalone chain verifiers, an inspector, an
adversarial drill, a policy console with separation of duties, signed console requests, and a seccomp
filter assembler. This project models all of these in Dafny and proves what the system promises, over
every input, every table and every run.

The functions that say what an operation does are pinned down a second time, by lemmas that name none
of them on the right-hand side: in terms of the stored keys, the characters, the numbers and the
requests themselves, in both directions.

`dafny verify dfyconfig.toml` checks the project.

## How it is built

| file | what it models |
|---|---|
| `Json.dfy`, `JsonReader.dfy`, `JsonText.dfy`, `Decimal.dfy` | JSON values and the canonical printer, a reader after RFC 8259 that knows nothing of it, why the text is the value's own, and decimal numerals |
| `Chain.dfy`, `Tamper.dfy` | the walk of both standalone verifiers, and tamper evidence |
| `Ledger.dfy` | the append-only receipt table |
| `Cashier.dfy` | store, verdict, effects |
| `Kitchen.dfy`, `Loops.dfy`, `Consumer.dfy`, `Gateway.dfy` | chef runner, enterprise loop, personal gate, JSON counter |
| `Pipeline.dfy` | runs: any interleaving of the three ways to place an order |
| `Chef.dfy` | the checks of the standalone chef and the file it opens |
| `Seccomp.dfy` | the BPF assembler and an interpreter for what it emits |
| `PolicyStore.dfy`, `Console.dfy` | policy history, materialized file, publish, approve, rollback, simulate |
| `InspectorChain.dfy`, `InspectorReport.dfy` | the inspector's chain walk and its report |
| `Drill.dfy` | the drill and its closed form |
| `SignedAuth.dfy` | signed console requests |

Objects whose methods update fields (store, ledger, loops, preferences, policy store, console) are
classes. Each method is proved against a function of the old state, and `Pipeline.Serve`,
`Pipeline.ServeAll` and the contracts of the console methods tie the objects to the state machines
that the run theorems are about.

Nothing is assumed of the digest. Where a result needs two digests to differ, it says instead that
two texts among those actually hashed in the tables at hand collide (`Tamper.Collides` over
`Tamper.Preimages`): a bare "or a collision exists" would be true of every hash function. Of
signatures and base64 the model assumes that what was signed verifies and what was encoded decodes
(`Chain.Crypto.Lawful`, after sections 5.1.6 and 5.1.7 of RFC 8032). The objects of the canonical
text, and the whole of `JsonReader.dfy`, follow sections 3 to 7 of RFC 8259.

Properties that fail as one might first state them are given with the exact condition under which
they hold, and with an input that shows the failure:

- One row per call holds for a run if and only if none of its calls ends in an exception
  (`Pipeline.OneRowPerCallExactly`), and `Pipeline.RaisesMeans` says which calls do. An accepted order
  whose id holds NUL spends its nonce, takes a slot of the rate limit and leaves no row
  (`Pipeline.NulLosesReceipt`); on a table whose last row stores no hash every call is lost
  (`Pipeline.EmptyRowLosesAll`).
- Clock readings guarantee the rate bound if and only if no later call is checked an hour or more
  after the accept of an earlier one and yet stamped within an hour of it
  (`Pipeline.RateBoundExactly`); readings that never run backwards inside one order are of this kind.
- The verifier dies on an exception if and only if its first bad row carries all key names and is no
  object (`Chain.CrashesExactly`, `Chain.ListOfKeysCrashes`).
- Inspector and verifier agree if and only if every row up to the inspector's first fault passes the
  verifier's key check (`InspectorChain.InspectorAgreesExactly`, `InspectorChain.BareRowDivides`).
- A signed request with a single-line method cannot be taken for another if and only if its path and
  admin id are single lines (`SignedAuth.UnmistakableExactly`, `SignedAuth.NewlinesConfuse`).
- The filter is right if and only if the block list has at most 252 numbers
  (`Seccomp.FaithfulExactly`, `Seccomp.NeverKills`).
- The drill passes if and only if the limit is between 1 and 11 on a valid chain
  (`Drill.DrillPassesExactly`).
- An accepted order reads its principal's own file if and only if the principal is neither `.` nor
  `..` (`Chef.OrderReadsOwnFile`); for `..` it reads beside the fixtures root
  (`Chef.DotDotLeavesRoot`). Owners share a file only at the root of the file system
  (`Chef.OwnersShareNoFile`).

Where code and comments differ, the model follows the code:

- `sentinel_slice/cashier/engine.py:156-170` calls the signed part of a ticket a dictionary of five keys; it has seven.
- `sentinel_slice/chef/runner.py:63-71` and `sentinel_slice/chef/runner.py:107-109` say an accepted order is never left without a receipt; `sentinel_slice/window/serving.py:26-32` raises on an order id that cannot name a directory, before any receipt is written and after the nonce and the stamp are.
- `sentinel_slice/gateway.py:36-42` says no intake goes unrecorded; an integer of more digits than Python converts, or nesting deeper than its stack, raises past the handler at `sentinel_slice/gateway.py:94`.
- `sentinel_slice/console/signed_auth.py:50-57` calls the signed bytes newline-delimited and ASCII-only by construction; neither path nor admin id is checked.
- `sentinel_slice/inspector.py:136-142` says the inspector walks the chain exactly like the verifier; rows that fail the verifier's key check are the exception.
- `sentinel_slice/verify_ledger.py:137-142` means to report every unreadable row as `json_parse`; a list or a text that contains all key names ends in an exception instead.
- `sentinel_slice/curriculum/drill.py:148-157` caps the flood for high limits; without a policy for the role the drill dies before the flood, with a negative limit after an empty one (`Drill.DrillDiesExactly`).

## Model

| member | source | states |
|---|---|---|
| JsonText.CanonicalReads | sentinel_slice/spine/canonical.py:6-13 | The canonical text of a value is its JSON text: a reader that knows only RFC 8259 reads it back as that value and stops at its end, for every value and everything that can follow one |
| JsonText.CanonicalUnambiguous | sentinel_slice/spine/canonical.py:6-13 | A canonical text followed by anything that closes a value can be read in one way only: same value, same rest |
| JsonText.CanonicalInjective | sentinel_slice/spine/canonical.py:6-13 | Different JSON values never share their canonical bytes, so hashing the bytes is hashing the value |
| JsonText.CanonicalPrintable | sentinel_slice/spine/canonical.py:13 | Canonical bytes are printable ASCII whatever the value holds |
| JsonText.LettersOf | sentinel_slice/spine/canonical.py:13 | The seven characters with a letter of their own are printed with it |
| JsonText.SpellingOf | sentinel_slice/spine/canonical.py:13 | Every other printable ASCII character stands for itself, and all the rest are lower-case `\u` units, two of them beyond the basic plane |
| JsonText.TextLeqMeans | sentinel_slice/spine/canonical.py:13 | The order of the keys: the first code point in which two texts differ decides, a prefix comes first |
| Json.SortedKeysMeans | sentinel_slice/spine/canonical.py:13 | `sort_keys` prints every key once, in increasing code point order |
| Decimal.ReadIntOfText | sentinel_slice/console/signed_auth.py:109-132 | `int(str(n))` gives back every integer |
| Decimal.ReadIntSpelled | sentinel_slice/console/signed_auth.py:129-132 | Digits with single underscores between them, with a sign and white space around, are read as the number their digits write, with that sign |
| Decimal.ReadIntExactly | sentinel_slice/console/signed_auth.py:129-132 | And no other text is read as an integer |
| Decimal.SpaceMeans | sentinel_slice/console/service.py:306 | White space, code point by code point, and what of it may stand around a numeral |
| Chain.VerifyTable | sentinel_slice/verify_ledger.py:126-171 | The verifier's walk reports the first row that is wrong, with its seq and the first thing wrong with it, and otherwise the number of rows |
| Chain.CheckRow | sentinel_slice/verify_ledger.py:130-164 | The checks on one row, in their order: parse and keys, own hash, link, signature |
| Chain.JsonParseExactly | sentinel_slice/verify_ledger.py:129-145 | A row is `json_parse` if and only if it is no JSON or lacks a key |
| Chain.RowFaultExactly | sentinel_slice/verify_ledger.py:147-168 | For an object with all keys: `hash_mismatch` exactly if the stored hash is not that of the rest of the row, whatever else is wrong; else `prev_hash_mismatch` exactly if it does not link; else `bad_signature` exactly if `sig` is no signature over that hash |
| Chain.StoredForm | sentinel_slice/verify_ledger.py:44-66 | The two genesis seeds, and the keys each kind of row must carry |
| Chain.VerdictByFirstFault | sentinel_slice/verify_policy_history.py:99-133 | The verdict is a function of the first faulty row alone; nothing after it matters |
| Chain.VerifiedMeansAccepted | sentinel_slice/verify_ledger.py:170 | `OK verified=n` is printed if and only if no row has a fault, and n is the number of rows |
| Chain.CrashesExactly | sentinel_slice/verify_ledger.py:69-79 | The verifier ends in an uncaught exception if and only if the first row that is not clean is no object and yet carries every key name |
| Chain.ListOfKeysCrashes | sentinel_slice/verify_policy_history.py:52-59 | A table whose one row is the list of the key names makes either verifier crash |
| Chain.CarriesAllMeans | sentinel_slice/verify_ledger.py:73-78 | A row passes the key guard if and only if each core key, `this_hash` and `sig` is in it |
| Chain.SubstringMeans | sentinel_slice/verify_ledger.py:73-78 | A key is in a text if and only if it stands somewhere in it |
| Tamper.AcceptedExactly | sentinel_slice/verify_ledger.py:126-168 | Acceptance in terms of the rows alone: a table verifies if and only if every row is an object with all keys that stores the hash of its own content, links to the hash of the row before it or to the genesis, and is signed over that hash |
| Tamper.HeadDeterminesTable | sentinel_slice/verify_ledger.py:126-168 | Two accepted tables, of either kind and any lengths, with equal head hashes are of one kind, equally long and equal in every hashed content, or two of the hashed texts collide |
| Tamper.ChainsShareNoHash | sentinel_slice/verify_policy_history.py:34 | An accepted receipt table and an accepted policy history share no row hash at any pair of positions, up to a collision of hashed texts |
| Tamper.HashesDistinct | sentinel_slice/verify_ledger.py:149-167 | The row hashes of one accepted table are pairwise distinct, up to a collision of hashed texts |
| Tamper.RowsKeepPlace | docs/THREATS.md:182-190 | Genuine rows cannot be left out, repeated or reordered: in an accepted table made of an accepted table's rows each row stands where it stood, up to a collision |
| Tamper.RearrangedIsPrefix | docs/THREATS.md:189-191 | What verifies among all arrangements of genuine rows are the prefixes and nothing else, up to a collision |
| Tamper.PrefixAccepted | docs/THREATS.md:189-195 | Cutting off the newest rows is not detected: every prefix of an accepted table is accepted |
| Tamper.ReplacedRow | sentinel_slice/verify_ledger.py:129-168 | The exact verdict after one row of an accepted table is overwritten with anything: failure at that row, or failure at the next row with `prev_hash_mismatch`, or, when the stored hash is the same, acceptance |
| Tamper.UnnoticedReplacement | sentinel_slice/verify_ledger.py:129-168 | An overwrite of a row that is not the last is accepted only if nothing but `sig` differs, up to a collision |
| Tamper.SealedIsClean | sentinel_slice/ledger/receipts.py:67-100 | A row linked, hashed and signed as `append` does it passes every check of the verifier |
| Tamper.AppendAccepted | sentinel_slice/ledger/receipts.py:67-105 | Appending to an accepted table gives an accepted table, whatever the content of the new row |
| ReceiptLedger.Ledger.HeadHash | sentinel_slice/ledger/receipts.py:43-52 | Gives whatever the last row stores as its hash, textual or not, or the genesis, and raises exactly when the last row is no object or stores none |
| ReceiptLedger.Ledger.Append | sentinel_slice/ledger/receipts.py:54-105 | One sealed row is added at the next seq and every stored row is kept; nothing is written when the head cannot be read |
| ReceiptLedger.Ledger.ReadAll | sentinel_slice/ledger/receipts.py:130-154 | Every row comes back field by field in order, or reading raises, exactly when some row lacks a key or a decodable signature |
| ReceiptLedger.AcceptedReads | sentinel_slice/ledger/receipts.py:137-152 | Reading never raises on a table the verifier accepts, rows of older schemas included |
| ReceiptLedger.AppendedReadsBack | sentinel_slice/ledger/receipts.py:67-154 | Round trip: what was appended is read back under its own keys, what was absent as null, linked to the head it met, with a signature over its own hash |
| ReceiptLedger.ReasonsRead | sentinel_slice/ledger/receipts.py:67-154 | The code read off the row of each reason is its name |
| ReceiptLedger.ReadsExactly | sentinel_slice/ledger/receipts.py:137-152 | Reading gets through a row if and only if it is an object with these ten keys and a decodable signature |
| ReceiptLedger.AppendedSeqs | sentinel_slice/ledger/receipts.py:28 | A new row takes the seq after the last one, so seqs that increase go on increasing |
| ReceiptLedger.AppendedAccepted | sentinel_slice/ledger/receipts.py:54-105 | A receipt of any content keeps the table acceptable to the standalone verifier |
| Cashier.ForRole | sentinel_slice/cashier/policy.py:35-40 | The policy is the first one for the role, and missing only if no policy names the role |
| Cashier.CashierStore.NonceSeen | sentinel_slice/cashier/store.py:45-55 | Reports whether the nonce was spent before and spends it; rate history untouched |
| Cashier.CashierStore.CountRecent | sentinel_slice/cashier/store.py:58-67 | The count of recorded accepts less than an hour old, by the store's clock |
| Cashier.CashierStore.RecordAccept | sentinel_slice/cashier/store.py:69-73 | Adds one stamp for this principal and capability and changes nothing else |
| Cashier.Evaluate | sentinel_slice/cashier/engine.py:80-153 | The verdict, computed step by step from the store's own read-only answers, is that of the six gates, and the store is not touched |
| Cashier.FirstFailingGate | sentinel_slice/cashier/engine.py:95-153 | An order is allowed if and only if it passes all six gates judged separately, and refused with the code of exactly the first gate it fails |
| Cashier.AllowMeans | sentinel_slice/cashier/engine.py:95-153 | An allowed order has a fresh nonce, a capability on the menu, a policy with room in its limit, and hands on only a resource in the principal's own scope |
| Cashier.SplitAtSlash | sentinel_slice/cashier/engine.py:136 | The two parts of a resource restore it, and the owner part holds no slash |
| Cashier.SplitOfJoin | sentinel_slice/cashier/engine.py:136 | Splitting `owner/local` gives the owner and the local part back |
| Cashier.InScopeExactly | sentinel_slice/cashier/engine.py:126-142 | A resource is in a principal's scope if and only if it is that principal's name, one slash, and a file name that is neither empty nor `.` nor `..` nor holds a slash or backslash, with no control character anywhere |
| Cashier.ProcessOrder | sentinel_slice/cashier/engine.py:190-274 | Spends the nonce whatever the verdict; on refusal appends one receipt with the reason, or raises when the table cannot be appended to; on acceptance mints a ticket, records one stamp and appends nothing |
| Kitchen.RunChef | sentinel_slice/chef/runner.py:50-177 | One receipt when it returns, FULFILLED only for a zero exit with a readable draft, and the caller gets draft and digest only then; nothing is written when opening the window, as for every order id with NUL, the sandbox, the attestor or the append raises |
| Kitchen.ChefResultMeans | sentinel_slice/chef/runner.py:107-177 | The caller gets the run's exit code and the receipt, and draft and digest exactly when the exit code is 0 and there is a draft; nothing exactly when the id holds NUL or the run raises |
| Loop.SentinelLoop.Spawn | sentinel_slice/loop.py:71-89 | Runs the chef once on the ticket, with the metadata of the order being placed; an exception leaves result and ledger as they were |
| Loop.SentinelLoop.Place | sentinel_slice/loop.py:91-106 | One receipt per order that returns: the refusal, or the chef's; an order whose runner or whose append raises has spent its nonce, and its stamp if it was accepted, and leaves no row; no chef result of an earlier order survives |
| Consumer.Preferences.SetState | sentinel_slice/consumer/preferences.py:52-55 | Sets one permission, leaves the others |
| Consumer.Preferences.Clear | sentinel_slice/consumer/preferences.py:57-59 | Forgets one permission, leaves the others |
| Consumer.ConsumerLoop.Place | sentinel_slice/consumer/loop.py:62-136 | One receipt per personal order that returns, which it does unless asking, saving an allow always, the runner, or the append raises; the five statuses, the draft and the prompt flags say exactly which gate stopped the order, whether it was done and whether the user was asked |
| Gateway.ParseOrderExact | sentinel_slice/gateway.py:79-117 | The gateway admits an order if and only if the intake is that order's own wire form with an object for args: nothing else is admitted and no order is lost |
| Gateway.RejectsExactly | sentinel_slice/gateway.py:79-117 | Why an intake is refused: no JSON, no object, the first missing of the seven keys, else the least foreign key, else the first of the six text keys that holds no text, else args that are no object, each if and only if |
| Gateway.PlaceOrderJson | sentinel_slice/gateway.py:188-209 | An unadmittable intake is receipted under the gateway's identity and leaves the store alone; an admitted one goes as the loop goes, exception included; an intake the JSON reader cannot take raises and leaves nothing; none returns without a row |
| Pipeline.Serve | sentinel_slice/loop.py:91-106 | Whichever entry point serves a call, the objects move exactly as the step of the state machine says, and the call returns exactly when the machine says so |
| Pipeline.ServeAll | sentinel_slice/consumer/loop.py:62-136 | After any sequence of calls, exceptions included, the objects hold the state of the corresponding run |
| Pipeline.NoReceiptExactly | sentinel_slice/ledger/receipts.py:67-105 | A call leaves no receipt exactly when it ends in an exception |
| Pipeline.RaisesMeans | sentinel_slice/window/serving.py:26-32 | The calls that raise: every call on a table whose last row is no object or stores no hash, intakes beyond the JSON reader, prompts that get no answer or an allow always that cannot be saved, and executed orders whose id holds NUL or whose run raises |
| Pipeline.HeadKeeps | sentinel_slice/ledger/receipts.py:43-52 | No call makes the head of the table readable or unreadable |
| Pipeline.UnreadableHeadLosesAll | sentinel_slice/ledger/receipts.py:43-52 | Over any run on a table whose head cannot be read every call raises and the table stays as it is |
| Pipeline.EmptyRowLosesAll | sentinel_slice/ledger/receipts.py:52 | On the table of one empty object an accepted order is stamped and a refused one is not, both raise, and no row is written |
| Pipeline.OneRowPerReturn | sentinel_slice/gateway.py:188-209 | From any table the verifier accepts, any interleaving of the three entry points keeps every old row, adds one row per call that returns and none per call that raises, and the verifier accepts with old count plus returned calls |
| Pipeline.OneRowPerCallExactly | sentinel_slice/ledger/receipts.py:67-105 | A run leaves one row per call if and only if none of its calls raises |
| Pipeline.NulLosesReceipt | sentinel_slice/chef/runner.py:82 | An accepted order whose id holds NUL raises with nonce and stamp spent and no row, and presented again it is a replay |
| Pipeline.ServeAndVerify | sentinel_slice/verify_ledger.py:126-171 | On the objects: from an accepted ledger, after a day of calls, the verifier's walk answers OK with the old count plus the calls that returned |
| Pipeline.RowOfCall | sentinel_slice/ledger/receipts.py:54-105 | The row of a call that returns is its receipt, sealed on the table the call met, at the place given by the calls that returned before it |
| Pipeline.SeqsOverRun | sentinel_slice/ledger/receipts.py:28 | Over any run the seqs of the table go on increasing; from an empty table they are 1, 2, 3 and so on |
| Pipeline.RowTellsOutcome | sentinel_slice/chef/runner.py:107-165 | For a call that returns: the row names its order and its who, what and when; it is FULFILLED exactly when the order was executed and the chef came back with exit code 0 and a draft, carries the draft's digest and the quote exactly then, the containment class exactly when the chef ran, a ticket id exactly when a ticket was issued; and its reason is the cashier's own for a refusal, EXECUTION_FAILED for a failed chef, USER_DENIED for a prompt without leave and USER_BLOCKED for a block that did not ask |
| Pipeline.MalformedRow | sentinel_slice/gateway.py:165-185 | The row of an unadmittable intake says only that it came, and when, under the gateway's own identity and the id it was given; store and permissions are untouched, and so is the table when the intake raises |
| Pipeline.TicketMeansStamp | sentinel_slice/cashier/engine.py:264-265 | A call leaves a stamp for a principal and capability exactly when it leaves a row with a ticket id for them or raises after a ticket was issued, and never both |
| Pipeline.Conservation | sentinel_slice/cashier/engine.py:173-187 | Over any run on any table the stamps added for a principal and capability are the rows added with a ticket id and that metadata plus the calls that raised with such a ticket issued: denials, blocks and failed executions count once, refusals never |
| Pipeline.SpentAre | sentinel_slice/cashier/store.py:38-55 | The spent nonces after a run are those spent before it and those presented in it |
| Pipeline.ReplayExactly | sentinel_slice/cashier/engine.py:95-97 | From a fresh store an order is refused as REPLAY if and only if an earlier call of the run presented its nonce, whatever became of that call |
| Pipeline.TicketsHaveDistinctNonces | sentinel_slice/cashier/engine.py:212-229 | Tickets minted in one run come from orders with pairwise distinct nonces |
| Pipeline.WindowCounted | sentinel_slice/cashier/store.py:58-67 | A check made no later than T counted every stamp of the hour that ends at T |
| Pipeline.RateCountExactly | sentinel_slice/cashier/store.py:63-67 | The cashier's count is the accepts of the hour ending now plus those stamped later than now |
| Pipeline.StampStep | sentinel_slice/cashier/engine.py:143-147 | One call adds at most one stamp, and only after a check that found fewer than the limit used |
| Pipeline.RateBound | sentinel_slice/cashier/engine.py:143-147 | In every state reachable from an empty history over clock readings of which no pair strays, every window of an hour holds at most as many accepts as the largest limit among the roles used |
| Pipeline.ForwardIsSteady | sentinel_slice/cashier/engine.py:264-265 | No pair strays when no order is stamped before its own check |
| Pipeline.StrayBreaksBound | sentinel_slice/cashier/store.py:63-73 | For any readings with a straying pair, two orders read there, among malformed intakes, put two accepts into one window under a limit of 1 |
| Pipeline.RateBoundExactly | sentinel_slice/cashier/store.py:58-73 | Clock readings keep the bound in every deployment, run, key and window if and only if no pair of them strays |
| Pipeline.BackwardClockBreaksBound | sentinel_slice/cashier/store.py:63-73 | The smallest failing run: checked an hour after the first order, stamped a second earlier |
| Pipeline.ChefRanExactly | sentinel_slice/consumer/loop.py:85-127 | The runner is called for a personal order exactly when the cashier accepted and the permission is ALLOW or the user, asked, said yes and an allow always could be saved; the run is on record exactly when the runner then did not raise and the table could be appended to |
| Pipeline.PermissionDecides | sentinel_slice/consumer/preferences.py:38-45 | At any call of any run, for a ticketed personal order and unless allowed always since: the stored permission of the start decides, and where none is stored the user is asked exactly about capabilities that require confirmation; it is executed exactly if allowed, or asked and granted with any allow always saved |
| Pipeline.AllowedAlwaysMeans | sentinel_slice/consumer/loop.py:99-107 | An allow always is a yes to a prompt, to be remembered |
| Pipeline.SettingStep | sentinel_slice/consumer/loop.py:103-107 | A call changes at most the permission it was prompted for, and only to ALLOW on allow always |
| Pipeline.SettingsOverRun | sentinel_slice/consumer/loop.py:100-107 | Over any run a permission is what it was, unless the user said allow always to a prompt for it, and then it is ALLOW |
| Pipeline.NeverAskedAgain | sentinel_slice/consumer/loop.py:103-107 | After allow always that capability never prompts again in the run |
| Pipeline.BlockedStaysBlocked | sentinel_slice/consumer/loop.py:89-97 | A capability that starts at BLOCK neither prompts nor runs, however long the run |
| Chef.CheckTicket | sentinel_slice/chef/chef_main.py:69-165 | The chef's refusals in their order: fields, one string resource, signature, string guard |
| Chef.ClearsExactly | sentinel_slice/chef/chef_main.py:69-165 | The gate clears a resource if and only if stdin is an object with the eight keys of the right kinds, `cashier_sig` decodes strictly to a signature over the canonical text of the seven values stored beside it, and the resource is the one text of the scoped arguments and somebody's own |
| Chef.RefusesExactly | sentinel_slice/chef/chef_main.py:69-165 | Exit 2 is for exactly what is not shaped like a ticket, 3 for exactly a ticket whose signature does not hold, 4 for exactly a signed ticket for a resource that is nobody's own |
| Chef.SignatureBindsTicket | sentinel_slice/chef/chef_main.py:118-142 | A minted ticket's signature clears another wire only if the wire holds the same seven values, or the key takes one signature for two different texts |
| Chef.GuardsAgree | sentinel_slice/chef/chef_main.py:145-165 | The chef's own guard accepts a resource for exactly the principal for whom the cashier's scope rule does |
| Chef.GuardExactly | sentinel_slice/chef/chef_main.py:145-165 | The chef's guard accepts a resource if and only if it is owner, one slash and a plain file name, free of control characters |
| Chef.MintedTicketClears | sentinel_slice/cashier/engine.py:231-262 | Every ticket the cashier mints passes the chef's checks, carries the ordered capability and its behavior, and clears the very resource the cashier validated |
| Chef.FixturePathExact | sentinel_slice/chef/chef_main.py:167-178 | A guarded resource resolves to root, owner, file if and only if the owner is neither `.` nor `..` |
| Chef.OwnersShareNoFile | sentinel_slice/chef/chef_main.py:154-178 | Two guarded resources open one file if and only if they are one resource, or the root is that of the file system, the owners are `.` and `..`, and the local parts are equal |
| Chef.OrderReadsOwnFile | sentinel_slice/chef/chef_main.py:145-184 | The file read for an accepted order is the one named in that principal's own directory if and only if the principal is neither `.` nor `..` |
| Chef.DotDotLeavesRoot | sentinel_slice/chef/chef_main.py:167-178 | The cashier accepts principal `..` with resource `../x`, and the chef then reads beside the fixtures root |
| Seccomp.BuildProgram | sentinel_slice/chef/linux_sandbox.py:121-138 | The assembled instructions, with every field cut to its C width, and the cut length |
| Seccomp.Scan | sentinel_slice/chef/linux_sandbox.py:131-134 | From any check on, the interpreter answers for the rest of the list as long as the jumps fit |
| Seccomp.FilterMeaning | sentinel_slice/chef/linux_sandbox.py:121-138 | With at most 252 numbers the filter halts within n + 4 steps: the kernel is told to kill on a foreign architecture, to fail a listed syscall with errno 13, and to allow the rest |
| Seccomp.NeverKills | sentinel_slice/chef/linux_sandbox.py:95-101 | With more than 252 numbers no input reaches KILL, because the architecture jump wraps in its 8-bit field, however much of the program the length field shows |
| Seccomp.FaithfulExactly | sentinel_slice/chef/linux_sandbox.py:95-138 | 252 is exact: the filter means what it should on every syscall if and only if the list has at most 252 numbers |
| Seccomp.DenyListMeaning | sentinel_slice/chef/linux_sandbox.py:131-134 | On the right architecture the deny list survives up to 255 numbers |
| Seccomp.LongListLetsThrough | sentinel_slice/chef/linux_sandbox.py:131-132 | With 256 or more distinct numbers, as many as the length field can hold, a listed syscall is allowed, and the lemma names it |
| Seccomp.LengthWraps | sentinel_slice/chef/linux_sandbox.py:100-101 | At 65530 numbers the 16-bit length field is 0 and the kernel is shown no instruction |
| Seccomp.InstalledFilters | sentinel_slice/chef/linux_sandbox.py:63-67 | Exactly three machines are supported, and within seven steps the filter each gets kills on any architecture number but its own, fails its socket, connect and bind with errno 13, and allows the rest |
| PolicyHistory.HistoryVerifies | sentinel_slice/verify_policy_history.py:99-133 | The standalone verifier accepts every history the store can have written, with its exact length |
| PolicyHistory.RowsOfTable | sentinel_slice/authoring/policy_store.py:110-143 | Each stored row reads back as the version appended, at its seq |
| PolicyHistory.VersionStored | sentinel_slice/authoring/policy_store.py:93-131 | What is stored of a version, key by key, under the next seq |
| PolicyHistory.LastActive | sentinel_slice/authoring/policy_store.py:145-151 | The active version is the newest active one, with none active after it |
| PolicyHistory.PolicyStore.AppendVersion | sentinel_slice/authoring/policy_store.py:93-131 | Adds one version at the end and returns its seq; the table stays the one its history determines |
| PolicyHistory.PolicyStore.ReadAll | sentinel_slice/authoring/policy_store.py:133-143 | Gives back the whole history in order |
| PolicyHistory.PolicyStore.ActiveVersion | sentinel_slice/authoring/policy_store.py:145-151 | The backwards scan finds the newest active version, or none if there is none |
| PolicyHistory.PolicyStore.MaterializeActive | sentinel_slice/authoring/policy_store.py:153-166 | The file holds the active version's policies, or is left alone when there is none |
| Console.ConsoleService.FindVersion | sentinel_slice/console/service.py:169-173 | Finds the version whose seq the target equals, true counting as 1, or reports that there is none |
| Console.ConsoleService.FlaggedBy | sentinel_slice/console/service.py:152-162 | The second-admin capabilities the candidate grants to any role, or the exception on an id that is a list or an object |
| Console.BlankMeans | sentinel_slice/console/service.py:306 | A change reason is refused exactly when it is no text or nothing but white space, in Python's sense of it |
| Console.ConsoleService.Publish | sentinel_slice/console/service.py:303-310 | The new state and the result, each refusal included, are those of the state machine |
| Console.ConsoleService.Approve | sentinel_slice/console/service.py:312-338 | As for publish: missing, settled and own proposals are refused and change nothing |
| Console.ConsoleService.Rollback | sentinel_slice/console/service.py:340-351 | As for publish: old content goes through the same second-admin gate, whatever kind of value names the target |
| Console.PublishFails | sentinel_slice/console/service.py:303-310 | Publishing is not allowed exactly for whoever is no author, a bad request exactly for a candidate or a reason not as demanded, dies exactly on an id that is a list or an object, and is done in every other case |
| Console.ApproveFails | sentinel_slice/console/service.py:312-338 | Approving is not allowed exactly for whoever is no reviewer and for the proposal's own author, finds nothing exactly for a seq that is none, conflicts exactly on an active version, and is done in every other case |
| Console.RollbackFails | sentinel_slice/console/service.py:340-351 | Rolling back is not allowed exactly for whoever is no author, a bad request exactly without a reason, finds nothing exactly for a target that is no seq, and is done in every other case but that of an unusable id |
| Console.DoneLeaves | sentinel_slice/console/service.py:286-301 | A refused request leaves everything as it was; one that is done adds one version and returns its seq and status |
| Console.PublishLeaves | sentinel_slice/console/service.py:286-310 | The version published: the author's, with candidate and reason as given and no approver, pending exactly if the catalog marks a capability it names, and the result names those |
| Console.RollbackLeaves | sentinel_slice/console/service.py:340-351 | The version rolled back to: the old policies under the requester's name and a reason that tells the seq, pending exactly if the catalog marks a capability they name |
| Console.ApproveLeaves | sentinel_slice/console/service.py:322-338 | The version approved: the proposal's author and policies, active, with the reviewer's name on it |
| Console.RowsEntitled | sentinel_slice/console/service.py:101-110 | Over every run from an empty store, a row without an approver comes from a request of its author in the author role, and an approved row from a request of its approver in the reviewer role |
| Console.HandleKeeps | sentinel_slice/console/service.py:286-351 | Every request, refused or served, keeps separation of duties and the agreement of file and history, and only appends |
| Console.ConsoleSafety | sentinel_slice/console/service.py:286-351 | Over every sequence of requests from an empty store the file holds exactly the policies of the last active version, duties stay separated at every row, and every history is a prefix of the later ones |
| Console.SensitiveWasApproved | sentinel_slice/console/service.py:312-331 | Any active row granting a second-admin capability has an approver other than its author and an earlier pending row with the same author and policies |
| Console.NamedWasApproved | sentinel_slice/console/service.py:152-162 | The same of the catalog's own flag and the ids the stored lists name |
| Console.FileIsLastActive | sentinel_slice/authoring/policy_store.py:153-166 | Over every run the file holds, under `policies`, those of the last active row |
| Console.NoFileWithoutActive | sentinel_slice/authoring/policy_store.py:153-166 | And there is no file as long as no row is active |
| Console.RollbackRestores | sentinel_slice/console/service.py:340-351 | Rolling back to a version that needs no second admin makes its policies active and puts them in the file; rolling back to one that does changes neither |
| Console.ConsoleService.Simulate | sentinel_slice/console/service.py:247-283 | Not allowed exactly for whoever is no author; otherwise the first thing wrong with candidate or samples is reported, and if there is none, one verdict per sample, in order, with nothing modified |
| Console.SampleErrorMeans | sentinel_slice/console/service.py:256-261 | A sample is bad exactly when it is no object or lacks one of three keys, and kills the request exactly when its capability id is a list or an object |
| Console.OddSamples | sentinel_slice/console/service.py:253-273 | A capability id that is no menu item is off the menu, a role that is no text is not permitted, a principal that is no text is allowed nothing |
| Console.SimulateFaithful | sentinel_slice/console/service.py:253-273 | For an order with an unspent nonce and any live store, a simulated allow is a live allow or RATE_LIMITED, and a simulated denial is a live denial for the same reason |
| Console.CandidateMeans | sentinel_slice/console/service.py:139-150 | The simulated engine sees the candidate's roles and limits, and grants and pauses exactly the ids its lists name |
| InspectorChain.CheckChain | sentinel_slice/inspector.py:136-164 | The inspector's walk over any rows JSON can hold reports the first broken one with its reason, or validity, or raises |
| InspectorChain.InspectFaultExactly | sentinel_slice/inspector.py:145-163 | What is wrong with an object, each if and only if: its own hash, else its link, else, with a key, its signature |
| InspectorChain.RaisesExactly | sentinel_slice/inspector.py:144-151 | The walk raises if and only if the first row that is not clean is no object |
| InspectorChain.InspectorAgreesExactly | sentinel_slice/inspector.py:136-164 | With a key, on every table of rows JSON can hold, inspector and verifier give the same verdict, seq and reason, or both an exception, if and only if every row up to the inspector's first fault passes the verifier's key check |
| InspectorChain.BareRowDivides | sentinel_slice/inspector.py:145-149 | One row that hashes, links and signs right and carries nothing else is valid to the inspector and `json_parse` to the verifier |
| InspectorChain.AcceptedIsValid | sentinel_slice/inspector.py:136-164 | A table the verifier accepts is valid to the inspector, with or without a key |
| InspectorChain.AppendInspects | sentinel_slice/curriculum/drill.py:163 | Appending a receipt leaves what an inspector without a key says of the table as it was, an exception included |
| InspectorReport.Count | sentinel_slice/inspector.py:172-208 | One pass over the rows gives the tally the lemmas below are about |
| InspectorReport.RowReads | sentinel_slice/inspector.py:179-207 | What the count reads of a row: fulfilled, without metadata, mock, its reason, its principal and its capability, by the stored keys |
| InspectorReport.CountableMeans | sentinel_slice/inspector.py:179-207 | The rows the loop gets through: objects whose reason and principal, where they are used, are no list and no object |
| InspectorReport.PlainMeans | sentinel_slice/inspector.py:206-207 | Reading truth values as numbers makes two values equal if and only if Python has them equal, inside lists and objects too |
| InspectorReport.KeysMean | sentinel_slice/inspector.py:184-196 | Two values that can be dictionary keys are one key if and only if Python has them equal; lists and objects cannot be keys |
| InspectorReport.TallyPartitions | sentinel_slice/inspector.py:172-208 | Fulfilled and rejected add up to the rows, the reasons to the rejected, the principals' orders and the rows without metadata to the rows |
| InspectorReport.FulfilledMeans | sentinel_slice/inspector.py:180-185 | The fulfilled count is the number of rows with that status |
| InspectorReport.ReasonsMean | sentinel_slice/inspector.py:184-186 | A seq is filed under a reason if and only if it is the seq of a row rejected for that reason |
| InspectorReport.ReasonsAre | sentinel_slice/inspector.py:184-186 | The seqs filed under a reason are those of the rows rejected for it, in the order of the rows |
| InspectorReport.PrincipalMeans | sentinel_slice/inspector.py:192-208 | A principal's line counts that principal's rows by verdict and lists exactly the capabilities they name, each once |
| InspectorReport.CollectKnown | sentinel_slice/inspector.py:223-233 | One finding per rule whose reason occurred, in the order of the rules |
| InspectorReport.CollectUnknown | sentinel_slice/inspector.py:234-246 | One finding per reason no rule knows |
| InspectorReport.BuildReport | sentinel_slice/inspector.py:167-273 | Chain verdict, tally and sorted findings of any table of parsed rows, from one call; it raises exactly when the chain walk does, or some row is no object or has a reason or principal that cannot be a dictionary key, or reasons or principals of different kinds would have to be sorted |
| InspectorReport.SortRaisesMeans | sentinel_slice/inspector.py:234-270 | Sorting raises exactly when reasons, or principals, are not all of one kind |
| InspectorReport.BrokenChainComesFirst | sentinel_slice/inspector.py:210-222 | A finding with the code CHAIN_BROKEN is there if and only if the chain is broken; then there is one, it is the first, critical, and names exactly the seq of the break |
| InspectorReport.MockComesLast | sentinel_slice/inspector.py:247-260 | ATTESTATION_IS_MOCK is there if and only if some row carries an attestation with `mock` true, and only information comes after it |
| InspectorReport.ReasonFindingExactly | sentinel_slice/inspector.py:223-246 | A finding about a reason names exactly the seqs of the rows rejected for it, in order, with that reason's severity and code; rows rejected without a reason get none |
| InspectorReport.HeaviestFirst | sentinel_slice/inspector.py:259-260 | Findings stand from critical over high, medium and low to information, and by code among equals |
| InspectorReport.SortedOfMeans | sentinel_slice/inspector.py:234 | Sorting keys of one kind gives each once in increasing order |
| InspectorReport.SortedReads | sentinel_slice/inspector.py:234 | Numbers come out increasing, texts by code points |
| InspectorReport.SortedInOrder | sentinel_slice/inspector.py:259-260 | Sorting orders the findings by severity and code and neither loses nor adds one |
| InspectorReport.FindingsPartition | sentinel_slice/inspector.py:210-260 | Where seqs are distinct, as they are over every run (`Pipeline.SeqsOverRun`): in the sorted findings each rejected row with a reason is named by exactly one reason finding, and one without a reason by none |
| Drill.RunDrill | sentinel_slice/curriculum/drill.py:95-176 | The drill on a live loop places the probe orders up to the first whose placing raises, and reports what a run of them shows, or dies |
| Drill.ProbesAre | sentinel_slice/curriculum/drill.py:61-157 | The probe orders, one by one |
| Drill.PassedMeans | sentinel_slice/curriculum/drill.py:118-176 | A drill is passed exactly when its seven probes observe this list of outcomes and the chain is valid |
| Drill.DrillDiesExactly | sentinel_slice/curriculum/drill.py:152-163 | The drill dies if and only if no policy names the role, or the limit is negative, or placing a probe raises, or the inspector raises on the table |
| Drill.DeadOnArrival | sentinel_slice/curriculum/drill.py:120 | On a table whose head cannot be read the drill dies at its first order and leaves no row |
| Drill.Verdicts | sentinel_slice/cashier/engine.py:95-153 | The cashier's verdict on every probe order as a function of the limit and the accepts so far |
| Drill.RunInspects | sentinel_slice/curriculum/drill.py:163 | However many calls a run makes, its rows never change what the inspector says of the table |
| Drill.DrillRun | sentinel_slice/curriculum/drill.py:118-157 | What each probe observes, that it raises exactly on a table whose head cannot be read, and how many accepts stand after it, for every prefix of the drill |
| Drill.DrillPassesExactly | sentinel_slice/curriculum/drill.py:61-176 | In a fresh deployment with a succeeding chef, under an hour, on any table: the drill reports a pass if and only if 1 <= limit <= 11 and the chain inspects as valid; it leaves 7 + min(limit, 10) rows on a table that can be appended to and none on any other |
| SignedAuth.SignedLines | sentinel_slice/console/signed_auth.py:50-57 | Cut at its newlines, the signed text of a request of single lines is scheme, upper-cased method, path, admin id, timestamp and body digest |
| SignedAuth.SigningTextDetermines | sentinel_slice/console/signed_auth.py:50-57 | If the signed request is made of single lines, any request with the same signed bytes, newlines in it or not, has the same upper-cased method, path, admin, timestamp and body digest |
| SignedAuth.NewlinesConfuse | sentinel_slice/console/signed_auth.py:54-57 | A newline moved between path and id leaves the signed bytes as they are |
| SignedAuth.UnmistakableExactly | sentinel_slice/console/signed_auth.py:50-57 | With a single-line method, no request that differs in a signed part shares the signed bytes if and only if path and id are single lines |
| SignedAuth.VerifyExactly | sentinel_slice/console/signed_auth.py:102-144 | A request signed with a registered key is accepted, as that admin and role, if and only if the two clocks, without their fractions, differ by at most the skew, 300 seconds where none is given |
| SignedAuth.TruncatedMeans | sentinel_slice/console/signed_auth.py:105-133 | A clock reading counts in whole seconds, cut towards zero |
| SignedAuth.AuthenticatedExactly | sentinel_slice/console/signed_auth.py:102-144 | Any request whatever is authenticated as an admin if and only if its three headers hold something, the registry gives that id that role, the timestamp reads as an integer within the skew, and the signature decodes strictly to one the registered key checks over the signed text |
| SignedAuth.SignatureBindsRequest | sentinel_slice/console/signed_auth.py:114-144 | A signature made for a request of single lines gets another request accepted, whatever that one and its identity headers hold, only if the two agree in all that is signed, or the named key takes one signature for two texts |

## Left out

- sqlite, files, subprocesses, command lines and exit codes: a table is a sequence of rows with their seqs, the policy file an optional value.
- SHA-256, Ed25519 and base64 themselves: functions with the contract named above; the answers of the file system, the sandbox, the attestor and the approver, exceptions among them, both clocks and fresh identifiers are inputs drawn before a call. A database that refuses a write is not modelled.
- UTF-8: text stands for its bytes, which for canonical text is one byte a character; what `json.loads` reads is taken as the stored value, text it refuses as `Unparseable`. Floats, NaN, lone surrogates and duplicate keys are not modelled; a stored row nested deeper than the reader's stack is not told from one it refuses.
- Clock readings are real numbers, so float rounding is not modelled.
- Loop.SentinelLoop.Place: the source calls the chef from inside the cashier, as its last action; the model calls it right after.
- Consumer.ConsumerLoop.Place: of saving the permissions after an allow always only success or failure is modelled, not the file.
- Consumer.Preferences.SetState: the permission is one of three by type, so the source's exception on other text does not arise.
- Gateway.PlaceOrderJson: starts from what the JSON library made of the intake; the tolerated byte order mark and the outcome dictionary are not modelled.
- Kitchen.RunChef: the workspace, its deletion and the chef's error output are not modelled; which ids other than those with NUL the file system refuses is drawn.
- Chef.CheckTicket: argument count, key file loading, handlers and the written draft are not modelled.
- Chef.FixturePathExact: symbolic links, other drives and Windows separators are not modelled.
- Seccomp.LongListLetsThrough: speaks of the interpreter; a kernel also refuses programs of more than 4096 instructions or without a return at the end, which is no part of the repository.
- Seccomp.InstalledFilters: the prctl calls and the Landlock rules are foreign calls and not modelled.
- Decimal.ReadIntOfText: the reader covers ASCII digits, with sign, underscores and any surrounding white space; other Unicode digits are not modelled.
- Drill.RunDrill: probe identifiers are drawn rather than printed with their prefixes, and the poisoned e-mail is taken to hold the expected address.
- Drill.DrillPassesExactly: the drill capability is scoped by `thread_id`, as in the shipped menu.
- Console.ConsoleSafety: the catalog is fixed during the run, since the second-admin flag is judged against the catalog of the moment.
- Console.ConsoleService.Approve: a pending version stays pending and may be approved again; nothing is claimed about approving at most once.
- InspectorReport.BuildReport: truth values used as reasons, principals or capabilities are read as the numbers Python takes them for, so the report's spelling of them is not modelled; nor are finding messages and the text rendering.
- SignedAuth.SigningTextDetermines: `str.upper` is any function, so the result speaks of the upper-cased method; digests are taken to hold no newline, as hexadecimal text does not.
- The other containment backends, the desktop and browser consoles, HTTP, the MCP bridge and its tool names, the installer, key generation, menu curation and catalog files.
