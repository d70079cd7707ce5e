# Ledger chaincode examples, modelled in Dafny

This project models two small chaincodes (smart contracts) that read and
write the key→value "world state" of a permissioned ledger:

- the **key/value asset** chaincode (`example1/example1.go`): `Init` and
  `set` store a string under a string key after checking how many arguments
  came in, `get` returns the stored string or reports it missing, and
  `Invoke` sends the function name `"set"` to `set` and every other name to
  `get`;
- the **employee record** contract (`example2/example2.go`): `Add` stores an
  `Employee` under its number unless that number is already present,
  `FindByNo` looks one up, `SalaryIncrease` reads, changes and writes back
  the salary, and `QueryAll` scans the whole key range and returns every
  `(key, record)` pair in key order. Numbers arrive as strings and go through
  `parseUint`, which calls Go's `strconv.Atoi`, drops its error and converts
  the result to `uint`.

The world state is a Dafny `map<string, V>`, so each operation is a pure
function from the state before the call to a `Step(out, state)`. It
returns the call's result and the state after it. The host store's own
failures (a refused read, write or range scan) come in as a
`HostFaults` parameter. That parameter says which of them happen during the
call, so the contracts' error branches are modelled without modelling the
host.

Modules:

- `GoInts` (goints.dfy): Go's 64-bit integer ranges, `uint(x)` of a
  signed value, and `+` on `uint` with wrap-around.
- `Strconv` (strconv.dfy): Go's `strconv.Atoi`, `ParseInt` and `ParseUint`
  in base 10 on a 64-bit platform. They follow the library's control flow,
  including the fast path of `Atoi`. Reference functions (`DecimalValue`,
  `DigitRun`) read a decimal numeral directly, and lemmas connect the two.
- `KeyOrder` (keyorder.dfy): the lexicographic key order of a range scan,
  its order laws, enumeration of a map's keys in that order, and uniqueness
  of such an enumeration.
- `Ledger` (ledger.dfy): `Result`, `Step`, `HostFaults` and the frame
  predicate `SameExcept` ("no key other than this one changed").
- `KeyValueAsset` (key_value_asset.dfy): example1.
- `EmployeeRecords` (employee_records.dfy): example2.

Behaviour the model keeps on purpose, because the code does it:

- `parseUint` never fails. Malformed text becomes 0, and a negative number
  becomes `2^64 - |n|`. A number beyond the int64 range becomes the int64
  bound of its sign, because `Atoi` returns that bound together with its
  range error and `parseUint` keeps the value. So the rule is not "any error
  gives 0". The digit loop stops at the first digit that overflows, so
  `"99999999999999999999x"` also saturates instead of being a syntax
  error. A stricter design would reject malformed or negative numbers. The
  model does not do that, because the code does not.
- `SalaryIncrease` adds with 64-bit wrap-around, so an increase of `"-500"`
  lowers a salary of at least 500 by 500 (`NegativeIncreaseLowersSalary`).
- `Add` refuses a number only when its existence check reads the record. If
  that read fails, `Add` goes on and writes, replacing any record stored
  under the number (`AddAfterFailedReadOverwrites`).

## Model

| member | source | states |
|---|---|---|
| KeyValueAsset.Init | example1/example1.go:15-25 | With other than two arguments: the key-and-value error, state unchanged. With a failed write: "Failed to create asset" for `args[0]`, state unchanged. Otherwise: empty success payload, `args[0]` maps to `args[1]`, every other key unchanged. |
| KeyValueAsset.Set | example1/example1.go:45-55 | With other than two arguments: the key-and-value error, nothing written. With a failed write: "Failed to set asset", state unchanged. Otherwise: returns `args[1]`, `args[0]` maps to `args[1]`, every other key unchanged. Succeeds exactly when there are two arguments and the write succeeds. |
| KeyValueAsset.Get | example1/example1.go:57-70 | With other than one argument: the expecting-a-key error. A failed read gives "Failed to get asset". An absent key gives "Asset not found" for that key. Succeeds exactly when there is one argument, the read succeeds and the key is present, and then returns the stored value. |
| KeyValueAsset.Respond | example1/example1.go:39-42 | A handler error becomes an error response carrying that error. A result becomes a success response carrying that result. |
| KeyValueAsset.Invoke | example1/example1.go:29-43 | The name "set" goes to `set` and takes `set`'s new state. Every other name goes to `get` and leaves the state as it was. Either answer is turned into a response by `Respond`. |
| KeyValueAsset.SetThenGet | example1/example1.go:45-70 | Round trip: after a successful `set(k, v)`, `get(k)` on a readable store returns `v`. |
| KeyValueAsset.GetUnwritten | example1/example1.go:62-68 | `get` of a key that is not in the state fails with "Asset not found" for that key. |
| KeyValueAsset.SetLeavesOtherKeys | example1/example1.go:50-54 | `set` of one key does not change what `get` answers for any other key. |
| KeyValueAsset.SetLastWriteWins | example1/example1.go:50-54 | Two `set`s of the same key leave the state the second one alone would leave. |
| KeyValueAsset.InitIsSet | example1/example1.go:15-55 | `Init` and `set` with the same arguments leave the same state and succeed together. |
| KeyValueAsset.InvokeSetThenGet | example1/example1.go:29-70 | Through `Invoke`: a "set" answers with `v`. A later call of any other name on the same key answers with `v` and leaves the state alone. |
| KeyValueAsset.InvokeWritesOnlyOnSet | example1/example1.go:29-55 | If `Invoke` changed the state, the name was "set" with two arguments and a successful write, and only `args[0]` changed. |
| GoInts.ToUint64 | example2/example2.go:33 | `uint(it)`: a non-negative value is kept. A negative value becomes value + 2^64. |
| GoInts.AddUint64 | example2/example2.go:105 | `uint` addition: the exact sum when it fits in 64 bits, otherwise the sum minus 2^64. The result is below the first operand exactly when the addition wrapped. |
| Strconv.ScanDigits | example2/example2.go:32 | The digit loop of `ParseUint`: the value stays within 64 bits. A syntax error comes with 0, a range error with the 64-bit maximum. |
| Strconv.ParseInt | example2/example2.go:32 | The value is within the int64 range. A syntax error comes with 0. A range error comes with the int64 bound of the input's sign. |
| Strconv.Atoi | example2/example2.go:32 | `Atoi` (fast path for short inputs, `ParseInt` otherwise) gives exactly what `ParseInt` gives, so it inherits `ParseInt`'s bounds and error values. |
| Strconv.ScanDigitsMeaning | example2/example2.go:32 | The digit loop gives a range error exactly when the leading digit run overflows 64 bits. Otherwise it gives a syntax error when a non-digit follows the run, and otherwise the numeral's value. |
| Strconv.FastPathAgrees | example2/example2.go:32 | On inputs shorter than 19 characters, `Atoi`'s fast path returns the same (value, error) pair as `ParseInt`, malformed input included. |
| Strconv.AtoiMeaning | example2/example2.go:32 | A well-formed numeral converts to its signed value when that fits in int64. Otherwise it clamps to the bound with a range error. Malformed input is never error-free. It is a syntax error exactly when its leading digits do not already overflow. |
| Strconv.LongRunOverflows | example2/example2.go:32 | Twenty or more leading digits, the first at least 2, denote a number beyond 64 bits. |
| EmployeeRecords.ParseUint | example2/example2.go:31-34 | `parseUint` is 0 when `Atoi` reports a syntax error. It equals `Atoi`'s value when that is non-negative, and that value + 2^64 when it is negative. |
| EmployeeRecords.ParseUintReadsNumeral | example2/example2.go:31-34 | For a well-formed numeral: its value if in [0, 2^63). Its value + 2^64 if negative and within int64. 2^63-1 above the range. 2^63 below it. Malformed text whose leading digits do not overflow gives 0. |
| EmployeeRecords.ParseUintSamples | example2/example2.go:31-34 | "42" and "+7" parse to their values. "-1" wraps to 2^64-1. "", "abc", "12a" and "-" all give 0. |
| EmployeeRecords.ParseUintSaturates | example2/example2.go:31-34 | Twenty or more leading digits led by a digit of at least 2 saturate: 2^63-1, or 2^63 for a minus sign, whatever follows. |
| EmployeeRecords.FindByNo | example2/example2.go:56-69 | A failed read is an error. An absent number gives "does not exist". Success exactly when the read works and the number is stored, and then the stored record is returned. |
| EmployeeRecords.NewEmployee | example2/example2.go:44-50 | The record `Add` builds keeps number, name and position as given. Age and salary go through `parseUint`. |
| EmployeeRecords.Add | example2/example2.go:37-53 | A number the existence check finds gives "Employee already exists" with the state unchanged. A failed write is an error with the state unchanged. Otherwise the new record is stored under `no` and no other key changes. |
| EmployeeRecords.SalaryIncrease | example2/example2.go:99-108 | A failed read, an absent number or a failed write is an error with the state unchanged. Otherwise only the salary of `no` changes. It becomes the `uint` sum of the old salary and `parseUint(increaseStr)`. Number, name, age, position and all other keys stay the same. |
| EmployeeRecords.QueryAll | example2/example2.go:72-96 | A failed scan is an error. Otherwise the answer holds exactly one entry per stored key, in strictly ascending key order, each with the record stored under its key. |
| KeyOrder.SortedKeys | example2/example2.go:74-77 | The full-range scan yields every key of the state once and nothing else, in strictly ascending lexicographic order. |
| KeyOrder.AscendingUnique | example2/example2.go:74-95 | Two strictly ascending key sequences with the same elements are equal, so a scan's order is fixed by the set of keys. |
| EmployeeRecords.AddThenFind | example2/example2.go:44-68 | After a successful `Add`, `FindByNo` of that number on a readable store returns exactly the record built from the arguments. |
| EmployeeRecords.AddTwiceRefused | example2/example2.go:39-42 | On a reliable store, a second `Add` of the same number fails with "already exists" and leaves the state as the first `Add` left it, whatever the other arguments. |
| EmployeeRecords.AddAfterFailedReadOverwrites | example2/example2.go:39-52 | When the existence read fails and the write succeeds, `Add` on a stored number succeeds and replaces the record. |
| EmployeeRecords.AddsCommute | example2/example2.go:37-53 | Adding two different numbers leaves the same state in either order. |
| EmployeeRecords.SalaryIncreasesCompose | example2/example2.go:99-107 | Two increases leave the salary at (old + both parsed increases) mod 2^64. |
| EmployeeRecords.NegativeIncreaseLowersSalary | example2/example2.go:100-105 | An increase that `Atoi` reads as -m, with m at most the salary, lowers the salary by exactly m. |
| EmployeeRecords.MalformedIncreaseChangesNothing | example2/example2.go:99-107 | An increase that is not a number succeeds and leaves the world state exactly as it was. |
| EmployeeRecords.OperationsKeepWellKeyed | example2/example2.go:44-52 | If every record is stored under its own number before `Add` or `SalaryIncrease`, the same holds afterwards. |
| EmployeeRecords.FullScanUnique | example2/example2.go:74-95 | Two full scans of the same state are equal, so `QueryAll`'s answer depends on the stored records and not on the order in which they were added. |
| EmployeeRecords.ScanAfterThreeAdds | example2/example2.go:74-95 | A full scan of a state holding numbers "1", "2" and "3" lists them in that order, each with its stored record. |
| EmployeeRecords.ZhangScenario | example2/example2.go:37-108 | Adding ("1", "Zhang", "18", "10000", "Boss") and finding "1" returns age 18 and salary 10000. After an increase of "500" the salary is 10500. |

## Left out

- JSON encoding and decoding of employee records (`json.Marshal`/`Unmarshal`): the map stores `Employee` values directly. The decode errors the code ignores, which only arise from bytes other chaincode wrote, are not modelled.
- Host store internals: durability, commit, and when a write becomes visible to later reads. The model assumes the next call sees what the previous call wrote. The host's own checks, such as the shim refusing an empty key, appear only as the abstract write failure of `HostFaults`.
- Which keys a scan covers: `GetStateByRange("", "")` is modelled as covering every stored key. The host's range handling, which substitutes "\x01" for an empty start key and so skips keys that begin with U+0000, is host behaviour and is not modelled.
- The iterator's `Close` (deferred cleanup with no effect on the answer), and where in the iteration a `Next` error happens. Any such error makes `QueryAll` return only an error, which is what `scanFails` models.
- The text of the host's own error descriptions. `AssetError.Message` takes it as a parameter, and `EmployeeError` names the error kinds only.
- `stub.GetFunctionAndParameters` splitting the call arguments: `Invoke` receives the function name and the parameters already split.
- `Strconv.Atoi`: Go chooses the fast path by byte length, and the model chooses it by character length. Both paths give the same answer (`FastPathAgrees`), so the choice does not change any result.
- The peer response's status code and the difference between a nil and an empty payload: `Init`'s `shim.Success(nil)` is modelled as an empty payload.
- The `main` functions and chaincode start-up (`shim.Start`, `contractapi.NewChaincode`).
- The HTTP gateway in example2app/example2app.go (wallet, identity, network connection, HTTP handlers). It is I/O against the SDK and has no logic of its own.
- Concurrency and conflicting writes: the host ledger detects these at commit time, not the chaincode.
