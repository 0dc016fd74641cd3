/** The seccomp filter generator is a compiler: from a list of denied system call numbers to
    a classic BPF program with computed jump offsets. The machine below follows the classic
    BPF instructions the generator uses, as the Linux kernel documents them (socket filter
    documentation, section "BPF engine and instruction set"). */
module Seccomp {
  import opened Options

  /** 32-bit words. */
  type Word = n: nat | n < 0x1_0000_0000

  const AUDIT_ARCH_X86_64: Word := 0xC000003E
  const X32_BIT: Word := 0x40000000
  const RET_KILL_PROCESS: Word := 0x80000000
  const RET_ALLOW: Word := 0x7FFF0000
  const RET_DENY: Word := 0x00050001  // SECCOMP_RET_ERRNO | EPERM

  type Offset = n: nat | n < 256

  datatype Field = Arch | Nr

  datatype Insn =
    | Load(field: Field)
    | JumpEq(k: Word, jt: Offset, jf: Offset)
    | JumpSet(k: Word, jt: Offset, jf: Offset)
    | Return(value: Word)

  /** The part of `seccomp_data` the filter reads. */
  datatype Call = Call(arch: Word, nr: Word)

  /** Bitwise conjunction. */
  function And(a: nat, b: nat): nat {
    if a == 0 || b == 0 then 0
    else (if a % 2 == 1 && b % 2 == 1 then 1 else 0) + 2 * And(a / 2, b / 2)
  }

  /** Runs a program from `pc` with accumulator `acc`; jumps only go forward. A program that
      runs off its end has no result. */
  function Run(program: seq<Insn>, call: Call, pc: nat, acc: Word): Option<Word>
    decreases |program| - pc
  {
    if pc >= |program| then None
    else match program[pc]
      case Load(Arch) => Run(program, call, pc + 1, call.arch)
      case Load(Nr) => Run(program, call, pc + 1, call.nr)
      case JumpEq(k, jt, jf) => Run(program, call, pc + 1 + (if acc == k then jt else jf), acc)
      case JumpSet(k, jt, jf) => Run(program, call, pc + 1 + (if And(acc, k) != 0 then jt else jf), acc)
      case Return(value) => Some(value)
  }

  /** Bit 30 of a system call number selects the x32 ABI. */
  predicate IsX32(nr: Word) {
    Bit(nr, 30)
  }

  /** Binary digit k of a number. */
  predicate Bit(a: nat, k: nat) {
    if k == 0 then a % 2 == 1 else Bit(a / 2, k - 1)
  }

  /** What a rule list means. */
  function Meaning(rules: seq<Word>, call: Call): Word {
    if call.arch != AUDIT_ARCH_X86_64 then RET_KILL_PROCESS
    else if IsX32(call.nr) || call.nr in rules then RET_DENY
    else RET_ALLOW
  }

  ghost predicate MeansRules(program: seq<Insn>, rules: seq<Word>) {
    forall call :: Run(program, call, 0, 0) == Some(Meaning(rules, call))
  }

  /** `static_cast<std::uint8_t>`. */
  function Truncated(n: nat): Offset {
    n % 256
  }

  /** The layout the generator aims at: prologue, one test per rule, allow, deny. */
  function Layout(rules: seq<Word>): seq<Insn>
    requires |rules| <= 255
  {
    var n := |rules|;
    [ Load(Arch), JumpEq(AUDIT_ARCH_X86_64, 1, 0), Return(RET_KILL_PROCESS), Load(Nr),
      JumpSet(X32_BIT, Truncated(n + 1), 0) ]
    + seq(n, k requires 0 <= k < n => JumpEq(rules[k], n - k, 0))
    + [ Return(RET_ALLOW), Return(RET_DENY) ]
  }

  /** The generator. It refuses a rule whose own jump would overflow, but truncates the
      offset of the x32 test without a check. */
  method BuildProgram(rules: seq<Word>) returns (program: Option<seq<Insn>>)
    ensures program == if |rules| <= 255 then Some(Layout(rules)) else None
    ensures program.Some? ==> (MeansRules(program.value, rules) <==> |rules| <= 254)
    ensures program.Some? && |rules| <= 254 ==> AnswersLiterally(program.value, rules)
  {
    var n := |rules|;
    var denyIndex := 6 + n;
    var insns := [Load(Arch), JumpEq(AUDIT_ARCH_X86_64, 1, 0), Return(RET_KILL_PROCESS), Load(Nr)];
    insns := insns + [JumpSet(X32_BIT, Truncated(denyIndex - 4 - 1), 0)];
    var k := 0;
    while k < n
      invariant 0 <= k <= n
      invariant k > 0 ==> n <= 255
      invariant |insns| == 5 + k
      invariant n <= 255 ==> insns == Layout(rules)[..5 + k]
    {
      var at := 5 + k;
      var off := denyIndex - at - 1;
      if off > 255 {
        return None;
      }
      insns := insns + [JumpEq(rules[k], Truncated(off), 0)];
      k := k + 1;
    }
    insns := insns + [Return(RET_ALLOW), Return(RET_DENY)];
    assert insns == Layout(rules);
    ProgramMeansRulesIff(rules);
    if n <= 254 {
      ProgramAnswers(rules);
    }
    if |insns| > 4096 {
      return None;
    }
    return Some(insns);
  }

  // ------------------------------------------------------------------------ correctness

  /** From the test of rule k on, the filter denies iff the number is one of the rules left. */
  lemma {:induction false} RulesRun(rules: seq<Word>, call: Call, k: nat)
    requires |rules| <= 255 && k <= |rules|
    ensures Run(Layout(rules), call, 5 + k, call.nr) == Some(if call.nr in rules[k..] then RET_DENY else RET_ALLOW)
    decreases |rules| - k
  {
    var program := Layout(rules);
    var n := |rules|;
    if k < n {
      assert program[5 + k] == JumpEq(rules[k], n - k, 0);
      if call.nr == rules[k] {
        assert program[6 + n] == Return(RET_DENY);
      } else {
        RulesRun(rules, call, k + 1);
      }
      assert rules[k..] == [rules[k]] + rules[k + 1..];
    } else {
      assert program[5 + n] == Return(RET_ALLOW);
    }
  }

  /** The architecture test comes first. */
  lemma ArchRun(rules: seq<Word>, call: Call)
    requires |rules| <= 255
    ensures Run(Layout(rules), call, 0, 0) ==
              if call.arch != AUDIT_ARCH_X86_64 then Some(RET_KILL_PROCESS) else Run(Layout(rules), call, 4, call.nr)
  {
    var program := Layout(rules);
    assert program[0] == Load(Arch) && program[1] == JumpEq(AUDIT_ARCH_X86_64, 1, 0);
    assert program[2] == Return(RET_KILL_PROCESS) && program[3] == Load(Nr);
    assert Run(program, call, 0, 0) == Run(program, call, 1, call.arch);
    if call.arch == AUDIT_ARCH_X86_64 {
      assert Run(program, call, 1, call.arch) == Run(program, call, 3, call.arch) == Run(program, call, 4, call.nr);
    } else {
      assert Run(program, call, 1, call.arch) == Run(program, call, 2, call.arch);
    }
  }

  /** The x32 test jumps to the denial, unless the truncation has left it no distance. */
  lemma X32Run(rules: seq<Word>, call: Call)
    requires |rules| <= 255
    ensures Run(Layout(rules), call, 4, call.nr) ==
              if IsX32(call.nr) && |rules| <= 254 then Some(RET_DENY) else Run(Layout(rules), call, 5, call.nr)
  {
    var program := Layout(rules);
    X32BitIsBit30();
    AndTestsBit(call.nr, 30);
    assert program[4] == JumpSet(X32_BIT, Truncated(|rules| + 1), 0);
    assert program[6 + |rules|] == Return(RET_DENY);
    if IsX32(call.nr) {
      assert Run(program, call, 4, call.nr) == Run(program, call, 5 + Truncated(|rules| + 1), call.nr);
    }
  }

  /** What the program answers, with the x32 jump where the truncation leaves it. */
  lemma ProgramRun(rules: seq<Word>, call: Call)
    requires |rules| <= 255
    ensures Run(Layout(rules), call, 0, 0) ==
              if call.arch != AUDIT_ARCH_X86_64 then Some(RET_KILL_PROCESS)
              else if IsX32(call.nr) && |rules| <= 254 then Some(RET_DENY)
              else Some(if call.nr in rules then RET_DENY else RET_ALLOW)
  {
    ArchRun(rules, call);
    X32Run(rules, call);
    RulesRun(rules, call, 0);
    assert rules[0..] == rules;
  }

  function Pow2(k: nat): nat {
    if k == 0 then 1 else 2 * Pow2(k - 1)
  }

  /** A conjunction with a single bit tests that bit. */
  lemma {:induction false} AndTestsBit(a: nat, k: nat)
    ensures Pow2(k) > 0 && (And(a, Pow2(k)) != 0 <==> Bit(a, k))
  {
    if k > 0 {
      AndTestsBit(a / 2, k - 1);
      assert Pow2(k) / 2 == Pow2(k - 1) && Pow2(k) % 2 == 0;
      if a == 0 {
        assert And(a / 2, Pow2(k - 1)) == 0;
      }
    } else {
      assert And(a / 2, 0) == 0;
    }
  }

  /** The leading digit of a number is set. */
  lemma {:induction false} LeadingBit(a: nat, k: nat)
    requires Pow2(k) <= a < 2 * Pow2(k)
    ensures Bit(a, k)
  {
    if k > 0 {
      LeadingBit(a / 2, k - 1);
    }
  }

  lemma X32BitIsBit30()
    ensures Pow2(30) == X32_BIT
  {
    assert Pow2(8) == 0x100;
    assert Pow2(16) == 0x10000;
    assert Pow2(24) == 0x1000000;
    assert Pow2(30) == 64 * Pow2(24);
  }

  /** Among more candidates than rules, one is not listed. */
  lemma {:induction false} Unlisted(rules: seq<Word>, candidates: set<nat>) returns (i: nat)
    requires |candidates| > |rules|
    ensures i in candidates && i !in rules
    decreases |rules|
  {
    if rules == [] {
      i :| i in candidates;
    } else {
      i := Unlisted(rules[1..], candidates - {rules[0]});
    }
  }

  ghost function Interval(lo: nat, n: nat): (interval: set<nat>)
    ensures |interval| == n
    ensures forall i :: i in interval <==> lo <= i < lo + n
  {
    if n == 0 then {} else Interval(lo, n - 1) + {lo + n - 1}
  }

  /** The generated program means the rule list exactly when there are at most 254 rules. With
      255 the generator still succeeds, but the offset of the x32 test wraps to 0 and x32
      numbers fall through to the rules; from 256 on it refuses. */
  lemma ProgramMeansRulesIff(rules: seq<Word>)
    requires |rules| <= 255
    ensures MeansRules(Layout(rules), rules) <==> |rules| <= 254
  {
    forall call
      ensures |rules| <= 254 ==> Run(Layout(rules), call, 0, 0) == Some(Meaning(rules, call))
    {
      ProgramRun(rules, call);
    }
    if |rules| == 255 {
      var x32 := Interval(0x40000000, 256);
      var nr := Unlisted(rules, x32);
      var call := Call(AUDIT_ARCH_X86_64, nr);
      ProgramRun(rules, call);
      X32BitIsBit30();
      LeadingBit(nr, 30);
      assert Run(Layout(rules), call, 0, 0) != Some(Meaning(rules, call));
    }
  }

  /** The answers in the words of the kernel: kill the process unless the architecture is x86-64,
      refuse with EPERM a number of the x32 ABI or a listed one, and allow any other. */
  ghost predicate AnswersLiterally(program: seq<Insn>, rules: seq<Word>) {
    forall call: Call ::
      Run(program, call, 0, 0) ==
        Some(if call.arch != 0xC000003E then 0x80000000
             else if (call.nr / 0x40000000) % 2 == 1 || call.nr in rules then 0x00050001
             else 0x7FFF0000)
  }

  lemma {:induction false} BitIsDigit(a: nat, k: nat)
    ensures Pow2(k) > 0 && (Bit(a, k) <==> (a / Pow2(k)) % 2 == 1)
  {
    if k > 0 {
      BitIsDigit(a / 2, k - 1);
      DivideTwice(a, Pow2(k - 1), Pow2(k));
    }
  }

  lemma DivideTwice(a: nat, p: nat, t: nat)
    requires p > 0 && t == 2 * p
    ensures a / 2 / p == a / t
  {
    var half := a / 2;
    var q, e := half / p, half % p;
    Divided(half, p);
    Twice(q, p, t);
    QuotientIs(a, t, q, 2 * e + a % 2);
  }

  lemma Twice(q: nat, p: nat, t: nat)
    requires t == 2 * p
    ensures q * t == 2 * (q * p)
  {
  }

  lemma Divided(a: nat, p: nat)
    requires p > 0
    ensures a == a / p * p + a % p && 0 <= a % p < p
  {
  }

  lemma QuotientIs(x: nat, p: nat, q: nat, r: nat)
    requires p > 0 && x == q * p + r && r < p
    ensures x / p == q
  {
    var d, e := x / p, x % p;
    assert x == d * p + e;
    assert (d - q) * p == r - e;
    AtLeastOne(d - q, p);
    AtLeastOne(q - d, p);
    assert (q - d) * p == -((d - q) * p);
  }

  lemma AtLeastOne(k: int, p: nat)
    ensures k >= 1 ==> k * p >= p
  {
  }

  lemma ProgramAnswers(rules: seq<Word>)
    requires |rules| <= 254
    ensures AnswersLiterally(Layout(rules), rules)
  {
    forall call: Call
      ensures Run(Layout(rules), call, 0, 0) ==
                Some(if call.arch != 0xC000003E then 0x80000000
                     else if (call.nr / 0x40000000) % 2 == 1 || call.nr in rules then 0x00050001
                     else 0x7FFF0000)
    {
      ProgramRun(rules, call);
      X32BitIsBit30();
      BitIsDigit(call.nr, 30);
    }
  }
}
