/**
 The pre-flight token estimate. The classification of runes into spaces, word runes and symbols is a
 parameter; strings are sequences of runes.
 */
module Tokenizer {
  datatype RuneClass = Space | Word | Symbol

  type Classifier = char -> RuneClass

  /** What one maximal run of n runes of a class costs. */
  function RunCost(c: RuneClass, n: nat): nat {
    match c
    case Space => 0
    case Word => if n == 0 then 0 else if n / 4 < 1 then 1 else n / 4
    case Symbol => (n + 1) / 2
  }

  /** The cost of what is left, given an open run of n runes of class c just before it. */
  function Scan(cls: Classifier, s: string, c: RuneClass, n: nat): nat {
    if s == [] then RunCost(c, n)
    else if cls(s[0]) == c then Scan(cls, s[1..], c, n + 1)
    else RunCost(c, n) + Scan(cls, s[1..], cls(s[0]), 1)
  }

  function Tokens(cls: Classifier, s: string): nat {
    Scan(cls, s, Space, 0)
  }

  /** All of s[from..to] is of class c, and the run ends at `to`. */
  predicate RunFrom(cls: Classifier, s: string, from: nat, to: nat, c: RuneClass) {
    from <= to <= |s| && forall i :: from <= i < to ==> cls(s[i]) == c
  }

  lemma {:induction false} ScanRun(cls: Classifier, s: string, from: nat, to: nat, c: RuneClass, n: nat)
    requires RunFrom(cls, s, from, to, c)
    ensures Scan(cls, s[from..], c, n) == Scan(cls, s[to..], c, n + (to - from))
    decreases |s| - from
  {
    if from < to {
      assert s[from..][1..] == s[from + 1..];
      ScanRun(cls, s, from + 1, to, c, n + 1);
    }
  }

  lemma {:induction false} SpacesAreFree(cls: Classifier, s: string, n: nat)
    ensures Scan(cls, s, Space, n) == Tokens(cls, s)
  {
    if s != [] && cls(s[0]) == Space {
      SpacesAreFree(cls, s[1..], n + 1);
      SpacesAreFree(cls, s[1..], 1);
    }
  }

  /** A complete run is paid for once, and scanning starts afresh after it. */
  lemma {:induction false} RunIsPaid(cls: Classifier, s: string, from: nat, to: nat, c: RuneClass)
    requires RunFrom(cls, s, from, to, c) && from < to && (to < |s| ==> cls(s[to]) != c)
    ensures Tokens(cls, s[from..]) == RunCost(c, to - from) + Tokens(cls, s[to..])
  {
    assert s[from..][0] == s[from] && s[from..][1..] == s[from + 1..];
    if c == Space {
      SpacesAreFree(cls, s[from + 1..], 1);
      ScanRun(cls, s, from, to, Space, 0);
      SpacesAreFree(cls, s[to..], to - from);
    } else {
      ScanRun(cls, s, from + 1, to, c, 1);
      if to < |s| {
        assert s[to..][0] == s[to] && s[to..][1..] == s[to + 1..];
        SpacesAreFree(cls, s[to + 1..], 1);
        SpacesAreFree(cls, s[to + 1..], 0);
      } else {
        assert s[to..] == [];
      }
    }
  }

  /** The parts of a text meet between two runs: the last rune of one and the first of the other differ in class. */
  predicate MeetBetweenRuns(cls: Classifier, a: string, b: string) {
    a != [] && b != [] ==> cls(a[|a| - 1]) != cls(b[0])
  }

  /**
   The estimate, from runs alone: spaces are free, a run of n letters and digits costs a quarter of n and at
   least one, a run of n symbols half of n rounded up, and a text costs what its runs do.
   */
  lemma {:induction false} RunsExactly(cls: Classifier, s: string, c: RuneClass)
    requires s != [] && forall i :: 0 <= i < |s| ==> cls(s[i]) == c
    ensures c == Space ==> Tokens(cls, s) == 0
    ensures c == Word ==> Tokens(cls, s) == if |s| < 4 then 1 else |s| / 4
    ensures c == Symbol ==> Tokens(cls, s) == (|s| + 1) / 2
  {
    RunIsPaid(cls, s, 0, |s|, c);
    assert s[0..] == s && s[|s|..] == [];
  }

  lemma {:induction false} RunsAddUp(cls: Classifier, a: string, b: string)
    requires MeetBetweenRuns(cls, a, b)
    ensures Tokens(cls, a + b) == Tokens(cls, a) + Tokens(cls, b)
  {
    RunsAddUpFrom(cls, a, b, Space, 0);
  }

  lemma {:induction false} RunsAddUpFrom(cls: Classifier, a: string, b: string, c: RuneClass, n: nat)
    requires MeetBetweenRuns(cls, a, b) && (a == [] && b != [] && n > 0 ==> cls(b[0]) != c) && (n == 0 ==> c == Space)
    ensures Scan(cls, a + b, c, n) == Scan(cls, a, c, n) + Tokens(cls, b)
  {
    if a != [] {
      assert (a + b)[0] == a[0] && (a + b)[1..] == a[1..] + b;
      RunsAddUpFrom(cls, a[1..], b, cls(a[0]), if cls(a[0]) == c then n + 1 else 1);
    } else {
      assert a + b == b;
      if b != [] {
        if n == 0 {
        } else {
          SpacesAreFree(cls, b[1..], 1);
          SpacesAreFree(cls, b[1..], 0);
        }
      }
    }
  }

  method EstimateTokens(cls: Classifier, s: string) returns (tokens: nat)
    ensures tokens == Tokens(cls, s)
  {
    if s == "" {
      return 0;
    }
    tokens := 0;
    var i := 0;
    assert s[0..] == s;
    while i < |s|
      invariant 0 <= i <= |s|
      invariant tokens + Tokens(cls, s[i..]) == Tokens(cls, s)
    {
      var start := i;
      match cls(s[i])
      case Space =>
        i := i + 1;
        assert s[start..][0] == s[start] && s[start..][1..] == s[i..];
        SpacesAreFree(cls, s[i..], 1);
      case Word =>
        while i < |s| && cls(s[i]) == Word
          invariant RunFrom(cls, s, start, i, Word)
          invariant i == start ==> i < |s| && cls(s[i]) == Word
        {
          i := i + 1;
        }
        RunIsPaid(cls, s, start, i, Word);
        var wordLen := i - start;
        var t := wordLen / 4;
        if t < 1 {
          t := 1;
        }
        tokens := tokens + t;
      case Symbol =>
        while i < |s| && cls(s[i]) != Space && cls(s[i]) != Word
          invariant RunFrom(cls, s, start, i, Symbol)
          invariant i == start ==> i < |s| && cls(s[i]) == Symbol
        {
          i := i + 1;
        }
        RunIsPaid(cls, s, start, i, Symbol);
        var runLen := i - start;
        var t := (runLen + 1) / 2;
        if t < 1 {
          t := 1;
        }
        tokens := tokens + t;
    }
    assert s[i..] == [];
  }

  /** Merging two runs of one class changes their cost by at most one, and never below either. */
  lemma {:induction false} MergedRun(c: RuneClass, m: nat, n: nat)
    ensures RunCost(c, m) + RunCost(c, n) - 1 <= RunCost(c, m + n) <= RunCost(c, m) + RunCost(c, n) + 1
    ensures RunCost(c, m + n) >= RunCost(c, m)
  {
  }

  /** Only the run that crosses the seam can notice the seam. */
  lemma {:induction false} OpenRun(cls: Classifier, s: string, c: RuneClass, m: nat, n: nat)
    ensures RunCost(c, m) + Scan(cls, s, c, n) - 1 <= Scan(cls, s, c, m + n) <= RunCost(c, m) + Scan(cls, s, c, n) + 1
    ensures Scan(cls, s, c, m + n) >= Scan(cls, s, c, n)
  {
    MergedRun(c, m, n);
    MergedRun(c, n, m);
    if s != [] && cls(s[0]) == c {
      OpenRun(cls, s[1..], c, m, n + 1);
    }
  }

  lemma {:induction false} SeamAtRun(cls: Classifier, b: string, c: RuneClass, n: nat)
    ensures RunCost(c, n) + Tokens(cls, b) - 1 <= Scan(cls, b, c, n) <= RunCost(c, n) + Tokens(cls, b) + 1
    ensures Scan(cls, b, c, n) >= Tokens(cls, b)
    ensures Scan(cls, b, c, n) >= RunCost(c, n)
  {
    if c == Space {
      SpacesAreFree(cls, b, n);
    } else if b == [] {
    } else if cls(b[0]) == c {
      OpenRun(cls, b[1..], c, n, 1);
      GrowsFromRun(cls, b[1..], c, n + 1);
      MergedRun(c, n, 1);
    } else {
      SpacesAreFree(cls, b[1..], 1);
      SpacesAreFree(cls, b[1..], 0);
    }
  }

  lemma {:induction false} GrowsFromRun(cls: Classifier, s: string, c: RuneClass, n: nat)
    ensures Scan(cls, s, c, n) >= RunCost(c, n)
  {
    if s != [] && cls(s[0]) == c {
      MergedRun(c, n, 1);
      GrowsFromRun(cls, s[1..], c, n + 1);
    }
  }

  lemma {:induction false} SeamInside(cls: Classifier, a: string, b: string, c: RuneClass, n: nat)
    ensures Scan(cls, a, c, n) + Tokens(cls, b) - 1 <= Scan(cls, a + b, c, n) <= Scan(cls, a, c, n) + Tokens(cls, b) + 1
    ensures Scan(cls, a + b, c, n) >= Scan(cls, a, c, n) && Scan(cls, a + b, c, n) >= Tokens(cls, b)
  {
    if a == [] {
      assert a + b == b;
      SeamAtRun(cls, b, c, n);
    } else {
      assert (a + b)[1..] == a[1..] + b && (a + b)[0] == a[0];
      if cls(a[0]) == c {
        SeamInside(cls, a[1..], b, c, n + 1);
      } else {
        SeamInside(cls, a[1..], b, cls(a[0]), 1);
      }
    }
  }

  /** Splitting a text anywhere moves its estimate by at most one, and no part is dearer than the whole. */
  lemma {:induction false} SeamBound(cls: Classifier, a: string, b: string)
    ensures Tokens(cls, a) + Tokens(cls, b) - 1 <= Tokens(cls, a + b) <= Tokens(cls, a) + Tokens(cls, b) + 1
    ensures Tokens(cls, a + b) >= Tokens(cls, a) && Tokens(cls, a + b) >= Tokens(cls, b)
  {
    SeamInside(cls, a, b, Space, 0);
  }

  function NonSpace(cls: Classifier, s: string): nat {
    if s == [] then 0 else (if cls(s[0]) == Space then 0 else 1) + NonSpace(cls, s[1..])
  }

  lemma {:induction false} ScanBetween(cls: Classifier, s: string, c: RuneClass, n: nat)
    ensures (if c == Space then 0 else n) + NonSpace(cls, s) <= 7 * Scan(cls, s, c, n)
    ensures Scan(cls, s, c, n) <= n + |s|
  {
    if s != [] {
      ScanBetween(cls, s[1..], if cls(s[0]) == c then c else cls(s[0]), if cls(s[0]) == c then n + 1 else 1);
    }
  }

  /** The estimate lies between a seventh of the non-space runes and the rune count. */
  lemma {:induction false} EstimateBetween(cls: Classifier, s: string)
    ensures NonSpace(cls, s) <= 7 * Tokens(cls, s) && Tokens(cls, s) <= |s|
  {
    ScanBetween(cls, s, Space, 0);
  }

  function MessageTokens(cls: Classifier, messages: seq<string>): nat {
    if messages == [] then 0
    else MessageTokens(cls, messages[..|messages| - 1]) + Tokens(cls, messages[|messages| - 1]) + 4
  }

  function RequestTokens(cls: Classifier, system: string, messages: seq<string>): nat {
    (if system != "" then Tokens(cls, system) + 4 else 0) + MessageTokens(cls, messages) + 3
  }

  /** The estimate of a request, from its parts: three for the reply, and four beside the text of each part. */
  lemma {:induction false} RequestExactly(cls: Classifier, system: string, messages: seq<string>, m: string)
    ensures RequestTokens(cls, "", []) == 3
    ensures RequestTokens(cls, system, []) == if system == "" then 3 else Tokens(cls, system) + 7
    ensures RequestTokens(cls, system, messages + [m]) == RequestTokens(cls, system, messages) + Tokens(cls, m) + 4
  {
    assert (messages + [m])[..|messages + [m]| - 1] == messages;
  }

  method EstimateMessagesTokens(cls: Classifier, system: string, messages: seq<string>) returns (total: nat)
    ensures total == RequestTokens(cls, system, messages)
  {
    total := 0;
    if system != "" {
      var t := EstimateTokens(cls, system);
      total := total + t + 4;
    }
    ghost var base := total;
    for i := 0 to |messages|
      invariant total == base + MessageTokens(cls, messages[..i])
    {
      var t := EstimateTokens(cls, messages[i]);
      total := total + t + 4;
      assert messages[..i + 1][..i] == messages[..i];
    }
    assert messages[..|messages|] == messages;
    total := total + 3;
  }

  lemma {:induction false} MessagesConcat(cls: Classifier, a: seq<string>, b: seq<string>)
    ensures MessageTokens(cls, a + b) == MessageTokens(cls, a) + MessageTokens(cls, b)
  {
    if b == [] {
      assert a + b == a;
    } else {
      assert (a + b)[..|a + b| - 1] == a + b[..|b| - 1];
      MessagesConcat(cls, a, b[..|b| - 1]);
    }
  }

  /** Splitting one message of a request into two, anywhere, always costs at least three tokens more. */
  lemma {:induction false} SplittingCosts(cls: Classifier, system: string, before: seq<string>, x: string, y: string,
                                          after: seq<string>)
    ensures RequestTokens(cls, system, before + [x, y] + after) >= RequestTokens(cls, system,
                before + [x + y] + after) + 3
  {
    MessagesConcat(cls, before + [x, y], after);
    MessagesConcat(cls, before, [x, y]);
    MessagesConcat(cls, before + [x + y], after);
    MessagesConcat(cls, before, [x + y]);
    MessagesConcat(cls, [x], [y]);
    assert [x] + [y] == [x, y];
    assert MessageTokens(cls, [x][..0]) == MessageTokens(cls, [y][..0]) == MessageTokens(cls, [x + y][..0]) == 0;
    SeamBound(cls, x, y);
  }
}
