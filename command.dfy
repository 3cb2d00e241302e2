/**
 * `configure`: derive the three register bytes of one test vector and write
 * the twelve-line command file the programmer tool reads. Each line is a
 * two-hex-digit address followed by a two-hex-digit value; nine lines are
 * fixed, three carry the derived registers.
 */
module Command {
  import opened Wrappers
  import opened Numerals
  import opened Strings

  /** One row of the sweep: attack rate, release rate, key code, key scale. */
  datatype TestVector = TestVector(ar: int, rr: int, kc: int, ks: int)

  /** The register contents derived from a vector: 0x28 (key code), 0x80 (key scale, attack rate), 0xe0 (release rate). */
  datatype Registers = Registers(r28: int, r80: int, re0: int)

  /** The field widths the registers leave for each parameter. */
  predicate InRange(v: TestVector) {
    0 <= v.ar < 0x40 && 0 <= v.rr <= 0xf && 0 <= v.kc < 0x100 && 0 <= v.ks <= 3
  }

  function DeriveRegisters(v: TestVector): Registers {
    Registers(v.kc, v.ks * 0x40 + v.ar, 0xf0 + v.rr)
  }

  /** Register 0x80 read back as its two fields: key scale in the top two bits, attack rate in the low six. */
  function UnpackKeyScaleAttack(r80: int): (int, int) {
    (r80 / 0x40, r80 % 0x40)
  }

  lemma PackingRoundTrip(v: TestVector)
    requires InRange(v)
    ensures var regs := DeriveRegisters(v);
      regs.r28 == v.kc && 0 <= regs.r80 < 0x100 && UnpackKeyScaleAttack(regs.r80) == (v.ks, v.ar)
      && 0xf0 <= regs.re0 <= 0xff && regs.re0 / 0x10 == 0xf && regs.re0 % 0x10 == v.rr
  {
  }

  /** A register line: a two-character address followed by the value as Python's '02x' writes it. */
  function RegisterLine(addr: string, value: int): string {
    addr + Format02x(value)
  }

  /** The twelve lines of the protocol around the three register lines, in the order they are written. */
  function Layout(line28: string, line80: string, lineE0: string): seq<string> {
    ["2087", line28, "4001", "6000", line80, "a000", lineE0, "0808", "0008", "0800", "00ff", "0000"]
  }

  /** The lines `configure` writes, in order, without their line terminators. */
  function CommandLines(v: TestVector): (lines: seq<string>) {
    var regs := DeriveRegisters(v);
    Layout(RegisterLine("28", regs.r28), RegisterLine("80", regs.r80), RegisterLine("e0", regs.re0))
  }

  /** The first twelve lines have the protocol's shape: all but lines 2, 5 and 7 are the fixed tokens, in order. */
  predicate FixedLinesInPlace(lines: seq<string>)
    requires |lines| >= 12
  {
    lines[..12] == Layout(lines[1], lines[4], lines[6])
  }

  lemma CommandLinesLayout(v: TestVector)
    ensures |CommandLines(v)| == 12
    ensures FixedLinesInPlace(CommandLines(v))
    ensures CommandLines(v)[1] == RegisterLine("28", v.kc)
    ensures CommandLines(v)[4] == RegisterLine("80", v.ks * 0x40 + v.ar)
    ensures CommandLines(v)[6] == RegisterLine("e0", 0xf0 + v.rr)
  {
  }

  /** Text made of the given lines, each followed by a newline, as successive `f.write` calls leave it. */
  function Terminated(lines: seq<string>): (text: string)
    decreases |lines|
  {
    if |lines| == 0 then "" else Terminated(lines[..|lines| - 1]) + lines[|lines| - 1] + "\n"
  }

  function CommandText(v: TestVector): string {
    Terminated(CommandLines(v))
  }

  /** Newline-terminated lines are the pieces of a newline join with an empty last piece. */
  lemma {:induction false} TerminatedIsJoin(lines: seq<string>)
    ensures Terminated(lines) == Join(lines + [""], "\n")
    decreases |lines|
  {
    if |lines| > 0 {
      var init := lines[..|lines| - 1];
      var last := lines[|lines| - 1];
      TerminatedIsJoin(init);
      JoinAppend(init, last);
      assert init + [last] == lines;
    }
  }

  lemma {:induction false} JoinAppend(init: seq<string>, last: string)
    ensures Join(init + [last] + [""], "\n") == Join(init + [""], "\n") + last + "\n"
    decreases |init|
  {
    if |init| > 0 {
      JoinAppend(init[1..], last);
      assert (init + [last] + [""])[1..] == init[1..] + [last] + [""];
      assert (init + [""])[1..] == init[1..] + [""];
    }
  }

  /** A line of the command file read back as (address, value), if it is four hexadecimal digits. */
  function DecodeLine(line: string): (r: Option<(nat, nat)>)
    ensures r.Some? ==> |line| == 4 && r.value.0 < 0x100 && r.value.1 < 0x100
  {
    if |line| != 4 then None
    else
      match (ParseNumeral(line[..2], 16), ParseNumeral(line[2..], 16))
      case (Some(addr), Some(value)) =>
        NumeralBound(line[..2]);
        NumeralBound(line[2..]);
        Some((addr, value))
      case _ => None
  }

  /** A two-digit hexadecimal numeral is below 0x100. */
  lemma NumeralBound(s: string)
    requires |s| == 2
    ensures ParseNumeral(s, 16).Some? ==> ParseNumeral(s, 16).value < 0x100
  {
    assert s[..1] == [s[0]];
  }

  /**
   * What the programmer tool can recover from the lines of a command file:
   * the test vector, provided there are exactly the twelve expected lines
   * (and nothing after the last newline), the fixed lines are in place and
   * the three register lines carry their addresses.
   */
  function DecodeLines(lines: seq<string>): Option<TestVector> {
    if |lines| != 13 || lines[12] != "" then None
    else if !FixedLinesInPlace(lines) then None
    else
      match (DecodeLine(lines[1]), DecodeLine(lines[4]), DecodeLine(lines[6]))
      case (Some((a28, r28)), Some((a80, r80)), Some((ae0, re0))) =>
        if a28 == 0x28 && a80 == 0x80 && ae0 == 0xe0 && re0 >= 0xf0 then
          var (ks, ar) := UnpackKeyScaleAttack(r80);
          Some(TestVector(ar, re0 - 0xf0, r28, ks))
        else None
      case _ => None
  }

  function DecodeCommandFile(text: string): Option<TestVector> {
    DecodeLines(Split(text, "\n"))
  }

  lemma RegisterLineDecodes(addr: string, a: nat, value: nat)
    requires |addr| == 2 && ParseNumeral(addr, 16) == Some(a) && value < 0x100
    ensures DecodeLine(RegisterLine(addr, value)) == Some((a, value))
  {
    Format02xRoundTrip(value);
    var line := RegisterLine(addr, value);
    assert line[..2] == addr && line[2..] == Format02x(value);
  }

  /** A line that a single `f.write` of the script ends: it holds no newline of its own. */
  predicate NoNewline(line: string) {
    '\n' !in line
  }

  lemma RegisterLineNoNewline(addr: string, value: int)
    requires NoNewline(addr)
    ensures NoNewline(RegisterLine(addr, value))
  {
    var line := RegisterLine(addr, value);
    forall i | 0 <= i < |line|
      ensures line[i] != '\n'
    {
      if i >= |addr| {
        Format02xAlphabet(value, i - |addr|);
      }
    }
  }

  lemma CommandLinesNoNewline(v: TestVector)
    ensures forall p :: p in CommandLines(v) + [""] ==> NoNewline(p)
  {
    var regs := DeriveRegisters(v);
    var lines := CommandLines(v) + [""];
    RegisterLineNoNewline("28", regs.r28);
    RegisterLineNoNewline("80", regs.r80);
    RegisterLineNoNewline("e0", regs.re0);
    assert forall i :: 0 <= i < |lines| ==> NoNewline(lines[i]);
  }

  /** No command line contains a newline, so the file splits back into exactly its lines. */
  lemma CommandTextLines(v: TestVector)
    ensures Split(CommandText(v), "\n") == CommandLines(v) + [""]
  {
    var lines := CommandLines(v);
    CommandLinesNoNewline(v);
    TerminatedIsJoin(lines);
    JoinSplit(lines + [""], '\n');
  }

  lemma AddressesParse()
    ensures ParseNumeral("28", 16) == Some(0x28)
    ensures ParseNumeral("80", 16) == Some(0x80)
    ensures ParseNumeral("e0", 16) == Some(0xe0)
  {
    assert "28"[..1] == "2" && "80"[..1] == "8" && "e0"[..1] == "e";
  }

  /** Decoding depends on the register lines only through what DecodeLine reads from them. */
  lemma DecodeLinesOf(lines: seq<string>, kc: nat, r80: nat, re0: nat)
    requires |lines| == 13 && lines[12] == "" && FixedLinesInPlace(lines)
    requires DecodeLine(lines[1]) == Some((0x28, kc))
    requires DecodeLine(lines[4]) == Some((0x80, r80))
    requires DecodeLine(lines[6]) == Some((0xe0, re0)) && re0 >= 0xf0
    ensures DecodeLines(lines) == Some(TestVector(r80 % 0x40, re0 - 0xf0, kc, r80 / 0x40))
  {
  }

  /** Each register line of an in-range vector reads back as its address and register value. */
  lemma RegisterLinesDecode(v: TestVector)
    requires InRange(v)
    ensures var regs := DeriveRegisters(v);
      DecodeLine(CommandLines(v)[1]) == Some((0x28, v.kc)) &&
      DecodeLine(CommandLines(v)[4]) == Some((0x80, regs.r80)) &&
      DecodeLine(CommandLines(v)[6]) == Some((0xe0, regs.re0))
  {
    var regs := DeriveRegisters(v);
    var lines := CommandLines(v);
    assert lines[1] == RegisterLine("28", regs.r28);
    assert lines[4] == RegisterLine("80", regs.r80);
    assert lines[6] == RegisterLine("e0", regs.re0);
    AddressesParse();
    RegisterLineDecodes("28", 0x28, regs.r28);
    RegisterLineDecodes("80", 0x80, regs.r80);
    RegisterLineDecodes("e0", 0xe0, regs.re0);
  }

  lemma CommandLinesDecode(v: TestVector)
    requires InRange(v)
    ensures DecodeLines(CommandLines(v) + [""]) == Some(v)
  {
    var regs := DeriveRegisters(v);
    var lines := CommandLines(v) + [""];
    CommandLinesLayout(v);
    assert FixedLinesInPlace(lines) by {
      assert lines[..12] == CommandLines(v);
    }
    RegisterLinesDecode(v);
    assert lines[1] == CommandLines(v)[1] && lines[4] == CommandLines(v)[4] && lines[6] == CommandLines(v)[6];
    DecodeLinesOf(lines, v.kc, regs.r80, regs.re0);
    PackingRoundTrip(v);
  }

  /** The file `configure` writes for an in-range vector determines that vector: no field spills into another. */
  lemma CommandFileRoundTrip(v: TestVector)
    requires InRange(v)
    ensures DecodeCommandFile(CommandText(v)) == Some(v)
  {
    CommandTextLines(v);
    CommandLinesDecode(v);
  }

  /**
   * The file that `open("music.txt", "w")` truncates and `f.write` appends
   * to. Every write of the script ends in exactly one newline, so the file
   * is kept as its sequence of lines; Text is what it holds on disk.
   */
  class CommandFile {
    var lines: seq<string>

    constructor ()
      ensures lines == []
    {
      lines := [];
    }

    function Text(): string
      reads this
    {
      Terminated(lines)
    }

    /** Opening for writing empties the file. */
    method Truncate()
      modifies this
      ensures lines == []
    {
      lines := [];
    }

    /** `f.write(line + "\n")`. */
    method WriteLine(line: string)
      modifies this
      ensures lines == old(lines) + [line]
    {
      lines := lines + [line];
    }
  }

  /** `configure(ar, rr, kc, ks)`: the file is replaced by the command lines of the vector. */
  method Configure(f: CommandFile, ar: int, rr: int, kc: int, ks: int)
    modifies f
    ensures f.lines == CommandLines(TestVector(ar, rr, kc, ks))
  {
    var reg28 := kc;
    var reg80 := ks * 0x40 + ar;
    var regE0 := 0xf0 + rr;
    var line28, line80, lineE0 := RegisterLine("28", reg28), RegisterLine("80", reg80), RegisterLine("e0", regE0);

    f.Truncate();
    f.WriteLine("2087");
    f.WriteLine(line28);
    f.WriteLine("4001");
    f.WriteLine("6000");
    assert f.lines == ["2087", line28, "4001", "6000"];
    f.WriteLine(line80);
    f.WriteLine("a000");
    f.WriteLine(lineE0);
    f.WriteLine("0808");
    f.WriteLine("0008");
    assert f.lines == ["2087", line28, "4001", "6000", line80, "a000", lineE0, "0808", "0008"];
    f.WriteLine("0800");
    f.WriteLine("00ff");
    f.WriteLine("0000");
    assert f.lines == Layout(line28, line80, lineE0);
  }
}
