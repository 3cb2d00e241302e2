/**
 * The bench run: the fixed table of test vectors and the loop that, for
 * each vector, writes the command file, computes the expected attack and
 * release rates and reads the measured times back from the device.
 */
module Bench {
  import opened Wrappers
  import opened Rate
  import opened Command
  import opened Response

  /** The sweep, in the order it is run. */
  const TESTS: seq<TestVector> := [
    TestVector(31, 15, 0x60, 0),
    TestVector(31, 15, 0x40, 0),
    TestVector(31, 15, 0x20, 0),
    TestVector(31, 15, 0x00, 0),
    TestVector(29, 14, 0x60, 0),
    TestVector(29, 14, 0x40, 0),
    TestVector(29, 14, 0x20, 0),
    TestVector(29, 14, 0x00, 0),
    TestVector(27, 13, 0x60, 0),
    TestVector(27, 13, 0x40, 0),
    TestVector(27, 13, 0x20, 0),
    TestVector(27, 13, 0x00, 0),
    TestVector(25, 12, 0x60, 0),
    TestVector(25, 12, 0x40, 0),
    TestVector(25, 12, 0x20, 0),
    TestVector(25, 12, 0x00, 0),
    TestVector(23, 11, 0x60, 0),
    TestVector(23, 11, 0x40, 0),
    TestVector(23, 11, 0x20, 0),
    TestVector(23, 11, 0x00, 0),
    TestVector(21, 10, 0x60, 0),
    TestVector(21, 10, 0x40, 0),
    TestVector(21, 10, 0x20, 0),
    TestVector(21, 10, 0x00, 0),
    TestVector(25, 11, 0x20, 1),
    TestVector(25, 11, 0x20, 2),
    TestVector(25, 11, 0x20, 3)
  ]

  /** Every vector fits the register fields. */
  lemma TestsInRange()
    ensures forall i :: 0 <= i < |TESTS| ==> InRange(TESTS[i])
  {
  }

  /** So for every vector the command file carries exactly that vector: no field overflows into another. */
  lemma TestsConfigureExactly()
    ensures forall i :: 0 <= i < |TESTS| ==> DecodeCommandFile(CommandText(TESTS[i])) == Some(TESTS[i])
  {
    TestsInRange();
    forall i | 0 <= i < |TESTS|
      ensures DecodeCommandFile(CommandText(TESTS[i])) == Some(TESTS[i])
    {
      CommandFileRoundTrip(TESTS[i]);
    }
  }

  /** One printed row of the table. */
  datatype Row = Row(vector: TestVector, attackRate: int, attackTime: nat, releaseRate: int, releaseTime: nat)

  /** The row for a vector, given the device's output for it; None when the script would stop there. */
  function ExpectedRow(v: TestVector, output: DeviceOutput): (r: Option<Row>)
    requires v.ks <= 5
  {
    match GetResponse(output)
    case None => None
    case Some((attackTime, releaseTime)) =>
      Some(Row(v, CalcRate(v.ar, v.kc, v.ks), attackTime, CalcRate(ReleaseArg(v.rr), v.kc, v.ks), releaseTime))
  }

  /** The rows are, one after another, the rows expected at positions 0, 1, ... */
  ghost predicate Follows(rows: seq<Row>, expected: nat -> Option<Row>)
    decreases |rows|
  {
    |rows| == 0 || (Follows(rows[..|rows| - 1], expected) && Some(rows[|rows| - 1]) == expected(|rows| - 1))
  }

  lemma {:induction false} FollowsAt(rows: seq<Row>, expected: nat -> Option<Row>, j: nat)
    requires Follows(rows, expected) && j < |rows|
    ensures Some(rows[j]) == expected(j)
    decreases |rows|
  {
    if j < |rows| - 1 {
      var init := rows[..|rows| - 1];
      FollowsAt(init, expected, j);
      assert init[j] == rows[j];
    }
  }

  /**
   * The loop `for ar,rr,kc,ks in tests` (run on TESTS). The external script
   * is the function device, which sees the iteration number and the command
   * file as it is when the script is started. A run that yields no reading
   * ends the sweep there. Python rejects the negative shift a key scale
   * above 5 would ask for, so the vectors must not have one.
   */
  method Sweep(f: CommandFile, tests: seq<TestVector>, device: (nat, string) -> DeviceOutput)
    returns (rows: seq<Row>, completed: bool)
    requires forall i :: 0 <= i < |tests| ==> tests[i].ks <= 5
    modifies f
    ensures |rows| <= |tests| && (completed <==> |rows| == |tests|)
    ensures forall i :: 0 <= i < |rows| ==>
      Some(rows[i]) == ExpectedRow(tests[i], device(i, CommandText(tests[i])))
    ensures !completed ==> ExpectedRow(tests[|rows|], device(|rows|, CommandText(tests[|rows|]))) == None
    ensures |tests| > 0 ==> f.lines == CommandLines(tests[if completed then |tests| - 1 else |rows|])
    ensures |tests| == 0 ==> f.lines == old(f.lines)
  {
    ghost var expected := (j: nat) =>
      if j < |tests| && tests[j].ks <= 5 then ExpectedRow(tests[j], device(j, CommandText(tests[j]))) else None;
    rows := [];
    var i := 0;
    while i < |tests|
      invariant 0 <= i <= |tests| && |rows| == i
      invariant Follows(rows, expected)
      invariant i > 0 ==> f.lines == CommandLines(tests[i - 1])
      invariant i == 0 ==> f.lines == old(f.lines)
    {
      var row := Measure(f, tests[i], i, device);
      if row.None? {
        assert row == expected(i);
        forall j | 0 <= j < |rows|
          ensures Some(rows[j]) == ExpectedRow(tests[j], device(j, CommandText(tests[j])))
        {
          FollowsAt(rows, expected, j);
        }
        return rows, false;
      }
      assert Some(row.value) == expected(i);
      assert (rows + [row.value])[..i] == rows;
      rows := rows + [row.value];
      i := i + 1;
    }
    forall j | 0 <= j < |rows|
      ensures Some(rows[j]) == ExpectedRow(tests[j], device(j, CommandText(tests[j])))
    {
      FollowsAt(rows, expected, j);
    }
    completed := true;
  }

  /** One pass of the loop body: configure, compute both rates, run the device and read its response. */
  method Measure(f: CommandFile, v: TestVector, i: nat, device: (nat, string) -> DeviceOutput)
    returns (row: Option<Row>)
    requires v.ks <= 5
    modifies f
    ensures f.lines == CommandLines(v)
    ensures row == ExpectedRow(v, device(i, CommandText(v)))
  {
    Configure(f, v.ar, v.rr, v.kc, v.ks);
    var attackRate := CalcRate(v.ar, v.kc, v.ks);
    var releaseRate := CalcRate(ReleaseArg(v.rr), v.kc, v.ks);
    var response := GetResponse(device(i, f.Text()));
    if response.None? {
      return None;
    }
    var (attackTime, releaseTime) := response.value;
    row := Some(Row(v, attackRate, attackTime, releaseRate, releaseTime));
  }

  /** The first row of the sweep: registers 0x60, 0x1f, 0xff, and both rates saturated at 63. */
  lemma FirstVectorExample()
    ensures var v := TESTS[0];
      DeriveRegisters(v) == Registers(0x60, 0x1f, 0xff)
      && CalcRate(v.ar, v.kc, v.ks) == 63 && CalcRate(ReleaseArg(v.rr), v.kc, v.ks) == 63
  {
    CalcRateExamples();
  }
}
