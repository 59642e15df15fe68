/**
 * The text keys of milestone bonuses. The ledger model keeps them structured;
 * this module shows when the text form loses nothing. Day keys stay text here.
 */
module LedgerKeys {
  import opened Common

  const COLON: char := ':'

  /** Text split at every colon; always at least one part. */
  function Split(s: string): (parts: seq<string>)
    ensures |parts| >= 1
  {
    if s == "" then [""]
    else if s[0] == COLON then [""] + Split(s[1..])
    else
      var rest := Split(s[1..]);
      [[s[0]] + rest[0]] + rest[1..]
  }

  predicate Plain(s: string) { COLON !in s }

  // ---- Numbers -------------------------------------------------------------------

  function Digit(d: nat): char
    requires d < 10
  {
    "0123456789"[d]
  }

  function DigitValue(c: char): Option<nat> {
    if '0' <= c <= '9' then Some((c as int - '0' as int) as nat) else None
  }

  function Decimal(n: nat): (s: string)
    ensures s != ""
  {
    if n < 10 then [Digit(n)] else Decimal(n / 10) + [Digit(n % 10)]
  }

  function ParseDecimal(s: string): Option<nat>
    decreases |s|
  {
    if s == "" then None
    else
      var last := DigitValue(s[|s| - 1]);
      if last.None? then None
      else if |s| == 1 then last
      else
        match ParseDecimal(s[..|s| - 1])
        case None => None
        case Some(high) => Some(10 * high + last.value)
  }

  lemma DigitReads(d: nat)
    requires d < 10
    ensures DigitValue(Digit(d)) == Some(d) && Digit(d) != COLON
  {
    assert d == 0 || d == 1 || d == 2 || d == 3 || d == 4 || d == 5 || d == 6 || d == 7 || d == 8 || d == 9;
  }

  lemma {:induction false} DecimalReads(n: nat)
    ensures ParseDecimal(Decimal(n)) == Some(n) && Plain(Decimal(n))
    decreases n
  {
    DigitReads(n % 10);
    if n >= 10 {
      DecimalReads(n / 10);
      assert Decimal(n)[..|Decimal(n)| - 1] == Decimal(n / 10);
    }
  }

  // ---- Splitting -------------------------------------------------------------------

  lemma {:induction false} SplitPlain(s: string)
    ensures Plain(s) ==> Split(s) == [s]
    ensures !Plain(s) ==> |Split(s)| > 1
    decreases |s|
  {
    if s != "" {
      SplitPlain(s[1..]);
      assert s == [s[0]] + s[1..];
    }
  }

  lemma {:induction false} SplitAt(a: string, b: string)
    ensures var parts := Split(a + ":" + b);
            |parts| == |Split(a)| + |Split(b)| && (Plain(a) ==> parts == [a] + Split(b))
    decreases |a|
  {
    var s := a + ":" + b;
    if a == "" {
      assert s == ":" + b && s[1..] == b;
    } else {
      SplitAt(a[1..], b);
      assert s[1..] == a[1..] + ":" + b;
      assert a == [a[0]] + a[1..];
    }
  }

  // ---- Keys ---------------------------------------------------------------------------

  function StreakKey(habit: string, milestone: nat, cycleStart: string): string {
    "sm" + ":" + (habit + ":" + (Decimal(milestone) + ":" + cycleStart))
  }

  function IdentityKey(identity: string, threshold: nat): string {
    "im" + ":" + (identity + ":" + Decimal(threshold))
  }

  datatype StreakKeyParts = StreakKeyParts(habit: string, milestone: nat, cycleStart: string)

  function ParseStreakKey(key: string): Option<StreakKeyParts> {
    var parts := Split(key);
    if |parts| != 4 || parts[0] != "sm" then None
    else
      match ParseDecimal(parts[2])
      case None => None
      case Some(milestone) => Some(StreakKeyParts(parts[1], milestone, parts[3]))
  }

  lemma StreakKeySplits(habit: string, milestone: nat, cycleStart: string)
    ensures |Split(StreakKey(habit, milestone, cycleStart))| == 2 + |Split(habit)| + |Split(cycleStart)|
    ensures Plain(habit) ==>
      Split(StreakKey(habit, milestone, cycleStart)) == ["sm", habit, Decimal(milestone)] + Split(cycleStart)
  {
    TailSplits(milestone, cycleStart);
    SplitPlain("sm");
    SplitTwice("sm", habit, Decimal(milestone) + ":" + cycleStart);
  }

  lemma SplitTwice(a: string, b: string, rest: string)
    ensures |Split(a + ":" + (b + ":" + rest))| == |Split(a)| + |Split(b)| + |Split(rest)|
    ensures Plain(a) && Plain(b) ==> Split(a + ":" + (b + ":" + rest)) == [a, b] + Split(rest)
  {
    SplitAt(b, rest);
    SplitAt(a, b + ":" + rest);
  }

  lemma TailSplits(milestone: nat, cycleStart: string)
    ensures Split(Decimal(milestone) + ":" + cycleStart) == [Decimal(milestone)] + Split(cycleStart)
  {
    DecimalReads(milestone);
    SplitAt(Decimal(milestone), cycleStart);
  }

  /** A key reads back as what it was built from exactly when neither the habit nor the day holds a colon. */
  lemma StreakKeyRoundTrips(habit: string, milestone: nat, cycleStart: string)
    ensures ParseStreakKey(StreakKey(habit, milestone, cycleStart))
            == Some(StreakKeyParts(habit, milestone, cycleStart))
            <==> Plain(habit) && Plain(cycleStart)
    ensures !(Plain(habit) && Plain(cycleStart)) ==> ParseStreakKey(StreakKey(habit, milestone, cycleStart)).None?
  {
    StreakKeySplits(habit, milestone, cycleStart);
    SplitPlain(habit);
    SplitPlain(cycleStart);
    DecimalReads(milestone);
  }

  predicate StartsWith(s: string, prefix: string) { prefix <= s }

  /** The prefix query of one habit never reaches another habit's bonuses. */
  lemma PrefixFindsOwnHabit(habit: string, other: string, milestone: nat, cycleStart: string)
    requires Plain(habit) && Plain(other)
    ensures StartsWith(StreakKey(other, milestone, cycleStart), "sm" + ":" + (habit + ":")) <==> other == habit
  {
    var key := StreakKey(other, milestone, cycleStart);
    var prefix := "sm" + ":" + (habit + ":");
    var tail := Decimal(milestone) + ":" + cycleStart;
    if prefix <= key {
      var rest := key[|prefix|..];
      assert key == "sm" + ":" + (habit + ":" + rest);
      SplitAt("sm", habit + ":" + rest);
      SplitAt(habit, rest);
      SplitAt("sm", other + ":" + tail);
      SplitAt(other, tail);
      SplitPlain("sm");
      assert Split(key)[1] == habit && Split(key)[1] == other;
    } else {
      assert other == habit ==> key == prefix + tail;
    }
  }

  /** Different bonuses have different keys, so the unique index admits each once and refuses no other. */
  lemma KeysAreUnique(h1: string, m1: nat, c1: string, h2: string, m2: nat, c2: string, identity: string, t: nat)
    requires Plain(h1) && Plain(c1) && Plain(h2) && Plain(c2)
    ensures StreakKey(h1, m1, c1) == StreakKey(h2, m2, c2) <==> h1 == h2 && m1 == m2 && c1 == c2
    ensures StreakKey(h1, m1, c1) != IdentityKey(identity, t)
  {
    StreakKeyRoundTrips(h1, m1, c1);
    StreakKeyRoundTrips(h2, m2, c2);
    assert StreakKey(h1, m1, c1)[0] == 's' && IdentityKey(identity, t)[0] == 'i';
  }
}
