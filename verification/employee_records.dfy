/**
 The employee record contract of example2/example2.go. Each employee is
 stored under its number `no`; the contract adds employees (refusing a
 number already present), finds one by number, raises a salary, and lists
 every stored employee in key order. Numeric arguments arrive as strings
 and go through `ParseUint`, which silently turns malformed input into 0
 and negative input into a large unsigned number.

 The host keeps records as JSON; here the map holds the `Employee` value
 itself, so encoding and decoding are the identity.
 */
module EmployeeRecords {
  import opened GoInts
  import opened Ledger
  import Strconv
  import KeyOrder

  datatype Employee = Employee(no: string, name: string, age: Uint64, salary: Uint64, position: string)

  /** One entry of `QueryAll`'s answer: a key and the record stored under it */
  datatype QueryResult = QueryResult(key: string, record: Employee)

  type WorldState = map<string, Employee>

  datatype EmployeeError =
    | AlreadyExists        // "Employee already exists"
    | DoesNotExist(no: string)  // "<no> does not exist"
    | ReadFailed           // "Failed to read from world state. ..."
    | WriteFailed          // the error `PutState` returned
    | ScanFailed           // the error `GetStateByRange` or `Next` returned

  /** `parseUint`: `strconv.Atoi` with its error dropped, then `uint(...)` */
  function ParseUint(data: string): (u: Uint64)
    ensures Strconv.Atoi(data).err == Strconv.ErrSyntax ==> u == 0
    ensures 0 <= Strconv.Atoi(data).value ==> u == Strconv.Atoi(data).value
    ensures Strconv.Atoi(data).value < 0 ==> u == Strconv.Atoi(data).value + Two64
  {
    ToUint64(Strconv.Atoi(data).value)
  }

  /** `FindByNo`: the employee stored under `no` */
  function FindByNo(state: WorldState, host: HostFaults, no: string): (r: Result<Employee, EmployeeError>)
    ensures host.readFails ==> r == Failure(ReadFailed)
    ensures !host.readFails && no !in state ==> r == Failure(DoesNotExist(no))
    ensures r.Success? <==> !host.readFails && no in state
    ensures r.Success? ==> r.value == state[no]
  {
    if host.readFails then Failure(ReadFailed)
    else if no !in state then Failure(DoesNotExist(no))
    else Success(state[no])
  }

  /** The record `Add` builds from its arguments */
  function NewEmployee(no: string, name: string, age: string, salary: string, position: string): (e: Employee)
    ensures e.no == no && e.name == name && e.position == position
    ensures e.age == ParseUint(age) && e.salary == ParseUint(salary)
  {
    Employee(no, name, ParseUint(age), ParseUint(salary), position)
  }

  /** `Add`: refuse a number that the existence check finds; otherwise write
      the new record. A failed existence READ does not stop the write. */
  function Add(state: WorldState, host: HostFaults, no: string, name: string, age: string, salary: string, position: string)
    : (t: Step<Result<(), EmployeeError>, Employee>)
    ensures !host.readFails && no in state ==> t == Step(Failure(AlreadyExists), state)
    ensures (host.readFails || no !in state) && host.writeFails ==> t == Step(Failure(WriteFailed), state)
    ensures t.out.Success? <==> (host.readFails || no !in state) && !host.writeFails
    ensures t.out.Failure? ==> t.state == state
    ensures t.out.Success? ==> no in t.state && t.state[no] == NewEmployee(no, name, age, salary, position)
                               && SameExcept(state, t.state, no)
  {
    var exist := FindByNo(state, host, no);
    if exist.Success? then Step(Failure(AlreadyExists), state)
    else if host.writeFails then Step(Failure(WriteFailed), state)
    else Step(Success(()), state[no := NewEmployee(no, name, age, salary, position)])
  }

  /** `SalaryIncrease`: read the record, add the parsed increase to its salary
      with 64-bit wrap-around, write it back */
  function SalaryIncrease(state: WorldState, host: HostFaults, no: string, increaseStr: string)
    : (t: Step<Result<(), EmployeeError>, Employee>)
    ensures host.readFails ==> t == Step(Failure(ReadFailed), state)
    ensures !host.readFails && no !in state ==> t == Step(Failure(DoesNotExist(no)), state)
    ensures !host.readFails && no in state && host.writeFails ==> t == Step(Failure(WriteFailed), state)
    ensures t.out.Success? <==> !host.readFails && no in state && !host.writeFails
    ensures t.out.Success? ==> no in t.state && SameExcept(state, t.state, no)
    ensures t.out.Success? ==>
              var before := state[no];
              var after := t.state[no];
              && after.no == before.no && after.name == before.name
              && after.age == before.age && after.position == before.position
              && after.salary == AddUint64(before.salary, ParseUint(increaseStr))
  {
    var increase := ParseUint(increaseStr);
    match FindByNo(state, host, no)
    case Failure(e) => Step(Failure(e), state)
    case Success(employee) =>
      if host.writeFails then Step(Failure(WriteFailed), state)
      else Step(Success(()), state[no := employee.(salary := AddUint64(employee.salary, increase))])
  }

  /** The keys of a scan's answer, in order */
  function KeysOf(rs: seq<QueryResult>): (keys: seq<string>)
    ensures |keys| == |rs|
    ensures forall i :: 0 <= i < |rs| ==> keys[i] == rs[i].key
  {
    seq(|rs|, i requires 0 <= i < |rs| => rs[i].key)
  }

  /** `rs` lists every stored employee once, with its key, in ascending key
      order, and nothing else */
  ghost predicate IsFullScan(state: WorldState, rs: seq<QueryResult>) {
    && KeyOrder.StrictlyAscending(KeysOf(rs))
    && (forall k :: k in KeysOf(rs) <==> k in state)
    && (forall i :: 0 <= i < |rs| ==> rs[i].key in state && rs[i].record == state[rs[i].key])
  }

  /** `QueryAll`: scan the whole key range (empty start and end key) and
      collect a `QueryResult` for every entry the iterator yields */
  method QueryAll(state: WorldState, host: HostFaults) returns (r: Result<seq<QueryResult>, EmployeeError>)
    ensures host.scanFails ==> r == Failure(ScanFailed)
    ensures !host.scanFails ==> r.Success? && IsFullScan(state, r.value)
  {
    if host.scanFails {
      return Failure(ScanFailed);
    }
    var keys := KeyOrder.SortedKeys(state);
    var results: seq<QueryResult> := [];
    var i := 0;
    while i < |keys|
      invariant 0 <= i <= |keys|
      invariant |results| == i
      invariant forall j :: 0 <= j < i ==> results[j] == QueryResult(keys[j], state[keys[j]])
    {
      results := results + [QueryResult(keys[i], state[keys[i]])];
      i := i + 1;
    }
    assert KeysOf(results) == keys;
    r := Success(results);
  }

  // ---------------------------------------------------------------------
  // Properties relating several calls
  // ---------------------------------------------------------------------

  /** What `ParseUint` returns, read against the plain meaning of a decimal
      numeral: its value when it fits in an int64, wrapped modulo 2^64 when
      negative, clamped when out of range, and 0 for malformed input whose
      leading digits do not already overflow. */
  lemma ParseUintReadsNumeral(data: string)
    ensures Strconv.WellFormed(data) && 0 <= Strconv.SignedValue(data) <= MaxInt64
            ==> ParseUint(data) == Strconv.SignedValue(data)
    ensures Strconv.WellFormed(data) && MinInt64 <= Strconv.SignedValue(data) < 0
            ==> ParseUint(data) == Strconv.SignedValue(data) + Two64
    ensures Strconv.WellFormed(data) && MaxInt64 < Strconv.SignedValue(data)
            ==> ParseUint(data) == MaxInt64
    ensures Strconv.WellFormed(data) && Strconv.SignedValue(data) < MinInt64
            ==> ParseUint(data) == MaxInt64 + 1
    ensures !Strconv.WellFormed(data) && !Strconv.LeadingRunOverflows(data)
            ==> ParseUint(data) == 0
  {
    Strconv.AtoiMeaning(data);
  }

  /** `ParseUint` on sample inputs: a negative number wraps and text that is
      not a number is 0 */
  lemma ParseUintSamples()
    ensures ParseUint("42") == 42 && ParseUint("+7") == 7
    ensures ParseUint("-1") == MaxUint64
    ensures ParseUint("") == 0 && ParseUint("abc") == 0 && ParseUint("12a") == 0 && ParseUint("-") == 0
  {
  }

  /** Twenty or more leading digits, the first of them at least 2, always
      exceed 64 bits, so `ParseUint` saturates to the int64 bound of the
      sign, whatever characters follow the digits */
  lemma ParseUintSaturates(data: string)
    requires 20 <= Strconv.DigitRun(Strconv.Unsigned(data)) && '2' <= Strconv.Unsigned(data)[0]
    ensures ParseUint(data) == if Strconv.Negative(data) then MaxInt64 + 1 else MaxInt64
  {
    var body := Strconv.Unsigned(data);
    Strconv.LongRunOverflows(body);
    Strconv.AtoiMeaning(data);
    if Strconv.WellFormed(data) {
      assert body[..Strconv.DigitRun(body)] == body;
    }
  }

  /** After a successful `Add`, `FindByNo` returns exactly the record built */
  lemma AddThenFind(state: WorldState, writer: HostFaults, reader: HostFaults,
                    no: string, name: string, age: string, salary: string, position: string)
    requires Add(state, writer, no, name, age, salary, position).out.Success?
    requires !reader.readFails
    ensures FindByNo(Add(state, writer, no, name, age, salary, position).state, reader, no)
            == Success(Employee(no, name, ParseUint(age), ParseUint(salary), position))
  {
  }

  /** A second `Add` of the same number is refused and changes nothing,
      whatever the other arguments are */
  lemma AddTwiceRefused(state: WorldState, host: HostFaults, no: string,
                        name: string, age: string, salary: string, position: string,
                        name2: string, age2: string, salary2: string, position2: string)
    requires !host.readFails && !host.writeFails
    ensures var first := Add(state, host, no, name, age, salary, position).state;
            Add(first, host, no, name2, age2, salary2, position2) == Step(Failure(AlreadyExists), first)
  {
  }

  /** When the existence check cannot read, `Add` still writes, replacing a
      record that may already be stored under the same number */
  lemma AddAfterFailedReadOverwrites(state: WorldState, host: HostFaults, no: string,
                                     name: string, age: string, salary: string, position: string)
    requires host.readFails && !host.writeFails && no in state
    ensures Add(state, host, no, name, age, salary, position).out.Success?
    ensures Add(state, host, no, name, age, salary, position).state[no] == NewEmployee(no, name, age, salary, position)
  {
  }

  /** Adding two different numbers gives the same world state in either order */
  lemma AddsCommute(state: WorldState, host: HostFaults,
                    a: string, nameA: string, ageA: string, salaryA: string, positionA: string,
                    b: string, nameB: string, ageB: string, salaryB: string, positionB: string)
    requires a != b && !host.writeFails
    ensures Add(Add(state, host, a, nameA, ageA, salaryA, positionA).state, host, b, nameB, ageB, salaryB, positionB).state
         == Add(Add(state, host, b, nameB, ageB, salaryB, positionB).state, host, a, nameA, ageA, salaryA, positionA).state
  {
  }

  /** Two raises compose: the salary grows by both increases, modulo 2^64 */
  lemma SalaryIncreasesCompose(state: WorldState, host: HostFaults, no: string, inc1: string, inc2: string)
    requires !host.readFails && !host.writeFails && no in state
    ensures var s2 := SalaryIncrease(SalaryIncrease(state, host, no, inc1).state, host, no, inc2).state;
            no in s2 && s2[no].salary == (state[no].salary + ParseUint(inc1) + ParseUint(inc2)) % Two64
  {
  }

  /** A negative increase lowers the salary: "-m" parses to 2^64 - m, and the
      unsigned addition wraps back to salary - m */
  lemma NegativeIncreaseLowersSalary(state: WorldState, host: HostFaults, no: string, increaseStr: string)
    requires !host.readFails && !host.writeFails && no in state
    requires Strconv.Atoi(increaseStr).value < 0
    requires -Strconv.Atoi(increaseStr).value <= state[no].salary
    ensures SalaryIncrease(state, host, no, increaseStr).state[no].salary
            == state[no].salary + Strconv.Atoi(increaseStr).value
  {
  }

  /** An increase that is not a number parses to 0: the record is written
      back unchanged, so the world state is exactly as before */
  lemma MalformedIncreaseChangesNothing(state: WorldState, host: HostFaults, no: string, increaseStr: string)
    requires !host.readFails && !host.writeFails && no in state
    requires Strconv.Atoi(increaseStr).err == Strconv.ErrSyntax
    ensures SalaryIncrease(state, host, no, increaseStr) == Step(Success(()), state)
  {
  }

  /** Every record is stored under its own number */
  ghost predicate WellKeyed(state: WorldState) {
    forall k :: k in state ==> state[k].no == k
  }

  /** `Add` and `SalaryIncrease` keep every record under its own number */
  lemma OperationsKeepWellKeyed(state: WorldState, host: HostFaults, no: string,
                                name: string, age: string, salary: string, position: string, increaseStr: string)
    requires WellKeyed(state)
    ensures WellKeyed(Add(state, host, no, name, age, salary, position).state)
    ensures WellKeyed(SalaryIncrease(state, host, no, increaseStr).state)
  {
  }

  /** A full scan of a world state is unique: the order and the contents of
      `QueryAll`'s answer depend on the stored records alone, not on the order
      in which they were added */
  lemma FullScanUnique(state: WorldState, rs1: seq<QueryResult>, rs2: seq<QueryResult>)
    requires IsFullScan(state, rs1) && IsFullScan(state, rs2)
    ensures rs1 == rs2
  {
    KeyOrder.AscendingUnique(KeysOf(rs1), KeysOf(rs2));
    assert forall i :: 0 <= i < |rs1| ==> rs1[i].key == KeysOf(rs2)[i];
  }

  /** After adding "1", "2" and "3" in any order, a full scan lists them as
      "1", "2", "3" with the records that were built */
  lemma ScanAfterThreeAdds(state: WorldState, rs: seq<QueryResult>)
    requires state.Keys == {"1", "2", "3"}
    requires IsFullScan(state, rs)
    ensures KeysOf(rs) == ["1", "2", "3"]
    ensures forall i :: 0 <= i < |rs| ==> rs[i].record == state[rs[i].key]
  {
    var expected := ["1", "2", "3"];
    assert KeyOrder.Below("1", "2") && KeyOrder.Below("2", "3") && KeyOrder.Below("1", "3");
    assert KeyOrder.StrictlyAscending(expected);
    KeyOrder.AscendingUnique(KeysOf(rs), expected);
  }

  /** The walk-through of the employee contract: add employee "1", find it,
      raise the salary by 500 and find it again */
  lemma ZhangScenario()
    ensures var s1 := Add(map[], Reliable, "1", "Zhang", "18", "10000", "Boss").state;
            && FindByNo(s1, Reliable, "1") == Success(Employee("1", "Zhang", 18, 10000, "Boss"))
            && FindByNo(SalaryIncrease(s1, Reliable, "1", "500").state, Reliable, "1")
               == Success(Employee("1", "Zhang", 18, 10500, "Boss"))
  {
  }
}
