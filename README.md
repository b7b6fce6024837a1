# otp-sh credential store, modelled in Dafny

otp-sh is an interactive one-time-password vault. Its core, `OtpMain` in
`index.js`, keeps a map from a secret string to a record `{otpUri, desc}` and
addresses entries by a 1-based index: the rank of the key in the sorted key
list, recomputed on every call. `repl` sorts each input line into help,
add-by-secret (`a`), add-by-URI (`u`), delete (`d`), show (`s`) or list.

The model has four modules:

- `Wrappers` (`wrappers.dfy`): `Option` and `Result`.
- `Order` (`order.dfy`): the lexicographic order of `lodash.sortBy` on
  strings (`Below`, `Less`) and `SortedKeys`, the sorted key list of a key
  set, with the facts the store needs about it: every key once in
  ascending order, uniqueness of that arrangement, and what removing or
  adding a key does to it.
- `Store` (`store.dfy`): the class `OtpMain` holding `db: map<string, Record>`
  and a `Library` value standing for the `otpauth`/`otplib` calls. Its
  methods are `AddBySecret`, `AddByOtpUri`, `DeleteNth` and `GenAll`, the
  last a loop building the listing rows. `Keys` and `ShowNth` are functions
  reading the store.
- `Repl` (`repl.dfy`): `Split` (JavaScript's `split(/ /)`), `Classify` (the
  `if` chain of `repl`) and `Execute`, which runs one classified command on
  the store.

The library calls are opaque functions carried in the `Library` datatype:
`totpUri` (the TOTP constructor followed by `toString()`), `parse`
(`URI.parse`), `generate` (`authenticator.generate` at a clock reading). A
`None` from one of them stands for the call throwing. The clock is the
`now` parameter of `GenAll` and `Execute`. `Number()` is the `number`
parameter of `Classify`; it returns `None` where JavaScript would give NaN
or a non-integer.

Behaviour of the code that a user's guide to otp-sh does not suggest, modelled as the code has it:

- `showNth` with an index out of range shows nothing. It reports no error.
- The description of `a SECRET DESC` is only the third space-separated
  field. It is absent when the line has no third field.
- Out-of-range indices for `d` and `s` are silent no-ops.
- The key stored by `addBySecret` is the secret exactly as typed. No
  normalisation is applied to it.

One behaviour departs from the code on purpose. `deleteNth` and `showNth`
test the key they look up for truthiness, so a stored empty-string key can
never be deleted or shown (see "## Findings"). `Store.NthKeyAsWritten` models
that test. The store methods use the corrected lookup `Store.NthKey`, which
reaches every stored key.

## Model

| member | source | states |
|---|---|---|
| `Order.BelowLexicographic` | index.js:22 | the key order is lexicographic: a prefix comes first, and otherwise the first differing character decides |
| `Order.BelowTotal` | index.js:22 | any two keys are comparable |
| `Order.BelowTransitive` | index.js:22 | the key order is transitive |
| `Order.BelowAntisymmetric` | index.js:22 | two keys each at most the other are equal, so the order has no ties between distinct keys |
| `Order.SortedKeys` | index.js:21-23 | the sorted key list has exactly the store's keys, each once (length equals key count), strictly ascending |
| `Order.SortedUnique` | index.js:22 | two strictly ascending lists with the same keys and length are equal, so `sortBy` fixes one list per key set whatever the insertion order |
| `Order.SortedKeysRemove` | index.js:68-72 | removing the key at position i leaves the sorted key list of the remaining keys equal to the old list with position i cut out |
| `Order.SortedKeysInsert` | index.js:52-54 | after an upsert the key is listed, and the list grows by one exactly when the key was new |
| `Order.EmptyKeyFirst` | index.js:22 | the empty-string key, when present, sorts first |
| `Order.AscendingInjective` | index.js:22 | in the sorted key list two positions hold the same key only if they are the same position |
| `Store.OtpMain.constructor` | index.js:12-19 | the store opens holding the persisted entries |
| `Store.OtpMain.Keys` | index.js:21-23 | `__keys()` lists every key of the store once, strictly ascending, length equal to the key count |
| `Store.OtpMain.AddBySecret` | index.js:49-56 | when the TOTP constructor fails, error and the store unchanged; otherwise `secret` maps to `{otpUri, desc}`, every other key keeps its record, and the key count grows by one exactly when `secret` was new |
| `Store.OtpMain.AddByOtpUri` | index.js:58-66 | when parsing fails, error and the store unchanged; otherwise the parsed Base32 secret maps to the input text verbatim with `desc = issuer + " " + label`, nothing else changes, key count as for an upsert |
| `Store.OtpMain.DeleteNth` | index.js:68-74 | with the corrected lookup `NthKey`: reports the key at index `nth` exactly when 1 <= nth <= key count, the empty-string key included; removes exactly that key, and the new key list is the old one with position nth-1 cut out; any other index leaves the store unchanged |
| `Store.OtpMain.ShowNth` | index.js:76-96 | with the corrected lookup `NthKey`: nothing exactly when the index is out of range, the empty-string key being shown like any other; error when the stored URI does not parse; otherwise index, description, stored URI and parsed Base32 secret of the key at rank nth |
| `Store.OtpMain.GenAll` | index.js:25-47 | succeeds exactly when every stored URI parses, and otherwise fails with a malformed-URI error; on success the rows are a listing (`IsListing`): one row per key in `__keys()` order, row i numbered i+1, its passcode generated from that entry's parsed Base32 secret and the clock only, with that entry's description |
| `Store.DeleteShiftsIndices` | index.js:68-72 | after deleting index n, index j < n names the same key as before and index j >= n names the key that was at index j+1 |
| `Store.NthKeyAddressesEveryKey` | index.js:69-70 | with the corrected lookup `NthKey` (the key at position nth-1 of `__keys()`, as index.js:69 and 77 index it, with no truthiness test), every stored key is reached by some index, and by one index only |
| `Store.EmptyKeyUnaddressable` | index.js:69-70 | with the lookup as written, `NthKeyAsWritten` (the key at position nth-1 of `__keys()` followed by the truthiness test of index.js:70 and 78), the empty-string key ranks first but no index reaches it, while the corrected lookup `NthKey` reaches it at index 1 |
| `Store.NthKeyAsWrittenAgrees` | index.js:69-70 | the lookup as written, `NthKeyAsWritten`, and the corrected lookup `NthKey` give the same answer for every key list and index, except where the key found is the empty string, which only `NthKey` returns |
| `Repl.Split` | index.js:125 | `split(/ /)` gives at least one field, exactly one when the line has no space, and no field contains a space |
| `Repl.JoinSplit` | index.js:125 | rejoining the fields with single spaces gives back the line |
| `Repl.SplitJoin` | index.js:125 | fields without spaces joined by single spaces split back into the same fields |
| `Repl.Classify` | index.js:110-138 | the secret and the description of an add, and the URI of `u`, never contain a space |
| `Repl.ClassifyHelp` | index.js:110 | help is chosen exactly for `?`, `h` and `help` |
| `Repl.ClassifyList` | index.js:136-138 | listing is chosen exactly when the line is no help word and starts with none of `a `, `u `, `d `, `s `; the empty line lists |
| `Repl.AddTakesThirdField` | index.js:124-126 | `a SECRET DESC MORE...` adds SECRET with description DESC; the fields after the third are dropped |
| `Repl.AddWithoutDescription` | index.js:124-126 | `a SECRET` adds SECRET with no description |
| `Repl.UriIsSecondField` | index.js:127-129 | `u URI ...` adds by URI with the second field only |
| `Repl.IndexIsSecondField` | index.js:130-135 | `d IDX ...` and `s IDX ...` use `Number(IDX)` of the second field only |
| `Repl.Execute` | index.js:108-141 | runs the classified command and states the new store for each: an add that the library rejects fails and leaves the store unchanged, and one it accepts upserts exactly its key; delete reports the key that the corrected lookup `NthKey` finds at the old index and removes exactly that key, or nothing; help, show and list never change the store; show reports what `ShowNth` gives; list succeeds exactly when every stored URI parses, and then yields the listing |

## Findings

| source | as written | input that shows it | evidently intended | confidence | as-written member | corrected member |
|---|---|---|---|---|---|---|
| index.js:69-70, 77-78 | `if(k)` tests the looked-up key for truthiness, so the key `""` counts as no entry | the line `a ` (or `a  note`, two spaces) stores the key `""` when the TOTP constructor accepts the empty secret; `d 1` and `s 1` then do nothing and the entry can never be deleted or shown | skip only an index out of range (`k === undefined`); every stored key is reachable by its index | medium, not executed; depends on the library accepting an empty secret | `Store.EmptyKeyUnaddressable` (on `Store.NthKeyAsWritten`) | `Store.NthKeyAddressesEveryKey` (on `Store.NthKey`, used by `Store.OtpMain.DeleteNth` and `Store.OtpMain.ShowNth`) |

## Left out

- HOTP/TOTP passcode generation, Base32 encoding and decoding, and otpauth URI parsing and serialising are in the `otpauth` and `otplib` libraries. They appear only as the opaque functions of `Store.Library`.
- JSON persistence through `simple-json-db` is not modelled, nor the `JSON.stringify`/`JSON.parse` of records. The database is the in-memory map `db`, and a stored record that fails `JSON.parse` is not modelled.
- Terminal output is not modelled: QR code, `table`, `chalk` and `console.log`. The operations return what they would print.
- The `prompt` read loop and the session-preserving `try`/`catch` are reduced to `Repl.Execute`: one command, whose errors become a `Failed` outcome.
- `Number()` coercion is the `number` parameter. NaN, fractions, hexadecimal and exponent forms are whatever that function returns.
- `Store.OtpMain.DeleteNth`: uses the corrected lookup `Store.NthKey`, so on a store holding the empty-string key, index 1 deletes that key, where index.js:70 deletes nothing and prints nothing. The as-written lookup is `Store.NthKeyAsWritten`.
- `Store.OtpMain.ShowNth`: uses the corrected lookup `Store.NthKey`, so it shows the entry of the empty-string key at index 1, where index.js:78 shows nothing.
- `Repl.Execute`: its delete and show cases inherit the corrected lookup of `Store.OtpMain.DeleteNth` and `Store.OtpMain.ShowNth`, so it removes and shows the empty-string key, where the source leaves it alone.
- `Store.OtpMain.GenAll`: reads the clock once for the whole listing, where the source reads it once per row. It treats `generate` as total, where `otplib` may throw on a secret it rejects.
- `Order.Below` compares Dafny characters (Unicode scalar values). JavaScript compares UTF-16 code units, and the two orders differ only for characters outside the Basic Multilingual Plane.
