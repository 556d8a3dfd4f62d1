/**
 * The lint step of the `validate` task in tasks.py: pylint's bit-encoded exit
 * status, the test that decides whether it aborts validation, and the run
 * over `./src` and then `./test` that stops at the first aborting result.
 */
module Tasks {

  /** `2 ** k`. */
  function Pow2(k: nat): (p: nat)
    ensures p >= 1
  {
    if k == 0 then 1 else 2 * Pow2(k - 1)
  }

  /**
   * Bit `k` of `n` in two's complement, as Python's integers have it: the
   * division is the floor division of Python's `>>`.
   */
  function Bit(n: int, k: nat): bool
    decreases k
  {
    if k == 0 then n % 2 == 1 else Bit(n / 2, k - 1)
  }

  /**
   * Python's `mask & n` for a non-negative `mask`, bit by bit from the lowest;
   * it never exceeds the mask.
   */
  function BitAnd(mask: nat, n: int): (r: nat)
    ensures r <= mask
  {
    if mask == 0 then 0 else 2 * BitAnd(mask / 2, n / 2) + (mask % 2) * (n % 2)
  }

  /** Masking with `2 ** k` keeps bit `k` and nothing else. */
  lemma {:induction false} BitAndSingle(k: nat, n: int)
    ensures BitAnd(Pow2(k), n) == (if Bit(n, k) then Pow2(k) else 0)
  {
    if k > 0 {
      BitAndSingle(k - 1, n / 2);
      assert Pow2(k) / 2 == Pow2(k - 1) && Pow2(k) % 2 == 0;
    }
  }

  /** The classes of message pylint signals in its exit status, one bit each. */
  datatype Category = Fatal | Error | Warning | Refactor | Convention | UsageError

  /** The bit of pylint's exit status that signals a category. */
  function BitOf(c: Category): nat
  {
    match c
    case Fatal => 0
    case Error => 1
    case Warning => 2
    case Refactor => 3
    case Convention => 4
    case UsageError => 5
  }

  /** The categories an exit status signals. */
  function Categories(code: int): set<Category>
  {
    (if Bit(code, 0) then {Fatal} else {}) +
    (if Bit(code, 1) then {Error} else {}) +
    (if Bit(code, 2) then {Warning} else {}) +
    (if Bit(code, 3) then {Refactor} else {}) +
    (if Bit(code, 4) then {Convention} else {}) +
    (if Bit(code, 5) then {UsageError} else {})
  }

  /** A status signals a category exactly when the category's bit is set. */
  lemma InCategories(code: int, c: Category)
    ensures c in Categories(code) <==> Bit(code, BitOf(c))
  {
  }

  /** The exit status pylint gives for a set of categories. */
  function CodeOf(cats: set<Category>): (code: nat)
    ensures code < 64
  {
    (if Fatal in cats then 1 else 0) +
    (if Error in cats then 2 else 0) +
    (if Warning in cats then 4 else 0) +
    (if Refactor in cats then 8 else 0) +
    (if Convention in cats then 16 else 0) +
    (if UsageError in cats then 32 else 0)
  }

  /** The categories that abort validation: fatal, error and usage error. */
  const Aborting: set<Category> := {Fatal, Error, UsageError}

  /**
   * The test in `do_linting`:
   * `pylint_ret and (1 & pylint_ret or 2 & pylint_ret or 32 & pylint_ret)`,
   * each operand read for its truth value.
   */
  predicate Stops(code: int)
  {
    code != 0 && (BitAnd(1, code) != 0 || BitAnd(2, code) != 0 || BitAnd(32, code) != 0)
  }

  /** Zero has no bit set. */
  lemma {:induction false} NoBitOfZero(k: nat)
    ensures !Bit(0, k)
  {
    if k > 0 {
      NoBitOfZero(k - 1);
    }
  }

  /** Bit 0 of `b + 2 * m` is `b`; the bits above it are those of `m`. */
  lemma BitShift(b: nat, m: int, k: nat)
    requires b < 2
    ensures Bit(b + 2 * m, k) <==> if k == 0 then b == 1 else Bit(m, k - 1)
  {
    assert (b + 2 * m) / 2 == m && (b + 2 * m) % 2 == b;
  }

  /** The pylint exit-code rule: validation stops exactly on bit 0, 1 or 5. */
  lemma StopsOnBits(code: int)
    ensures Stops(code) <==> Bit(code, 0) || Bit(code, 1) || Bit(code, 5)
  {
    BitAndSingle(0, code);
    BitAndSingle(1, code);
    BitAndSingle(5, code);
    if code == 0 {
      NoBitOfZero(0);
      NoBitOfZero(1);
      NoBitOfZero(5);
    }
  }

  /** Validation stops exactly when a fatal, error or usage-error message was issued. */
  lemma StopsOnAborting(code: int)
    ensures Stops(code) <==> Categories(code) * Aborting != {}
  {
    StopsOnBits(code);
    if Bit(code, 0) {
      assert Fatal in Categories(code) * Aborting;
    } else if Bit(code, 1) {
      assert Error in Categories(code) * Aborting;
    } else if Bit(code, 5) {
      assert UsageError in Categories(code) * Aborting;
    }
  }

  /** A clean run never stops validation. */
  lemma CleanRunContinues()
    ensures !Stops(0)
  {
  }

  /**
   * The `pylint_ret and` guard is redundant: the bit test alone already fails
   * on a zero status.
   */
  lemma GuardRedundant(code: int)
    ensures Stops(code) <==> (BitAnd(1, code) != 0 || BitAnd(2, code) != 0 || BitAnd(32, code) != 0)
  {
    if code == 0 {
      assert BitAnd(1, 0) == 0 && BitAnd(2, 0) == 0 && BitAnd(32, 0) == 0;
    }
  }

  /** The number whose bits, from the lowest, are `flags`. */
  function Pack(flags: seq<bool>): nat
  {
    if flags == [] then 0 else (if flags[0] then 1 else 0) + 2 * Pack(flags[1..])
  }

  /** Bit `k` of a packed number is the `k`-th flag. */
  lemma {:induction false} PackBit(flags: seq<bool>, k: nat)
    requires k < |flags|
    ensures Bit(Pack(flags), k) <==> flags[k]
  {
    BitShift(if flags[0] then 1 else 0, Pack(flags[1..]), k);
    if k > 0 {
      PackBit(flags[1..], k - 1);
    }
  }

  /** Whether each category, in bit order, is in `cats`. */
  function Flags(cats: set<Category>): (flags: seq<bool>)
    ensures |flags| == 6
    ensures forall c :: flags[BitOf(c)] <==> c in cats
  {
    [Fatal in cats, Error in cats, Warning in cats, Refactor in cats, Convention in cats, UsageError in cats]
  }

  /** The status of a set of categories packs its flags. */
  lemma CodeOfPacks(cats: set<Category>)
    ensures CodeOf(cats) == Pack(Flags(cats))
  {
    var f := Flags(cats);
    assert Pack(f[5..]) == (if f[5] then 1 else 0) + 2 * Pack(f[6..]);
    assert Pack(f[4..]) == (if f[4] then 1 else 0) + 2 * Pack(f[5..]);
    assert Pack(f[3..]) == (if f[3] then 1 else 0) + 2 * Pack(f[4..]);
    assert Pack(f[2..]) == (if f[2] then 1 else 0) + 2 * Pack(f[3..]);
    assert Pack(f[1..]) == (if f[1] then 1 else 0) + 2 * Pack(f[2..]);
    assert Pack(f) == (if f[0] then 1 else 0) + 2 * Pack(f[1..]);
  }

  /** The bit of a category is set in the status of a set exactly when the set holds it. */
  lemma BitOfCode(cats: set<Category>, c: Category)
    ensures Bit(CodeOf(cats), BitOf(c)) <==> c in cats
  {
    CodeOfPacks(cats);
    PackBit(Flags(cats), BitOf(c));
  }

  /** Reading the categories back from the status pylint gives for them loses nothing. */
  lemma CategoriesOfCode(cats: set<Category>)
    ensures Categories(CodeOf(cats)) == cats
  {
    forall c: Category ensures c in Categories(CodeOf(cats)) <==> c in cats {
      InCategories(CodeOf(cats), c);
      BitOfCode(cats, c);
    }
  }

  /** Warnings, refactoring hints and conventions alone never stop validation. */
  lemma StyleOnlyContinues(cats: set<Category>)
    requires cats <= {Warning, Refactor, Convention}
    ensures !Stops(CodeOf(cats))
  {
    CategoriesOfCode(cats);
    StopsOnAborting(CodeOf(cats));
  }

  /** How a lint step ends: on to the next step, or `sys.exit` with a status. */
  datatype LintOutcome = Passed | Exited(status: int)

  /**
   * `do_linting` after `context.run` gave `exitCode`: exit with pylint's own
   * status when an aborting category was signalled, carry on otherwise.
   */
  method DoLinting(exitCode: int) returns (outcome: LintOutcome)
    ensures outcome.Exited? <==> Categories(exitCode) * Aborting != {}
    ensures outcome.Exited? ==> outcome.status == exitCode
  {
    StopsOnAborting(exitCode);
    if exitCode != 0 && (BitAnd(1, exitCode) != 0 || BitAnd(2, exitCode) != 0 || BitAnd(32, exitCode) != 0) {
      outcome := Exited(exitCode);
    } else {
      outcome := Passed;
    }
  }

  /**
   * The lint part of `validate`: lint `./src`, then `./test`, where `pylint`
   * gives the exit status a run on a path ends with. Returns the paths linted,
   * in order, and how linting ended.
   */
  method Validate(pylint: string -> int) returns (linted: seq<string>, outcome: LintOutcome)
    ensures 1 <= |linted| <= 2 && linted[0] == "./src"
    ensures |linted| == 2 ==> linted[1] == "./test"
    ensures |linted| == 1 <==> Stops(pylint("./src"))
    ensures outcome.Exited? <==> Stops(pylint(linted[|linted| - 1]))
    ensures outcome.Exited? ==> outcome.status == pylint(linted[|linted| - 1])
  {
    StopsOnAborting(pylint("./src"));
    StopsOnAborting(pylint("./test"));
    linted := ["./src"];
    outcome := DoLinting(pylint("./src"));
    if outcome.Exited? {
      return;
    }
    linted := linted + ["./test"];
    outcome := DoLinting(pylint("./test"));
  }
}
