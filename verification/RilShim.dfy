/** The radio interface shim that shortens the baseband version. */
module RilShim {
  import opened Options

  /** What the shim reads of `RequestInfo` and its `CommandInfo`. */
  datatype RequestInfo = RequestInfo(token: int, requestNumber: int)

  /** A response is absent or a C string without its terminator. */
  datatype Completion = Completion(t: Option<RequestInfo>, error: int, response: Option<seq<char>>, responseLen: nat)

  const MAX_LENGTH := 45

  function Spaces(s: seq<char>): (n: nat)
    ensures n <= |s|
  {
    if s == [] then 0 else Spaces(s[..|s| - 1]) + if s[|s| - 1] == ' ' then 1 else 0
  }

  /** The characters that the shim counts. */
  function NonSpaces(s: seq<char>): (n: nat)
    ensures n == |s| - Spaces(s)
  {
    if s == [] then 0 else NonSpaces(s[..|s| - 1]) + if s[|s| - 1] != ' ' then 1 else 0
  }

  /** The window handed on instead of a long version. */
  function Shortened(s: seq<char>): seq<char> {
    var c := NonSpaces(s);
    if c > MAX_LENGTH then s[c - MAX_LENGTH..c] else s
  }

  class RilEnv {
    var completions: seq<Completion>

    method OnRequestComplete(c: Completion)
      modifies this
      ensures completions == old(completions) + [c]
    {
      completions := completions + [c];
    }
  }

  class Shim {
    /** The framework's environment, saved by `RIL_Init`. */
    const env: RilEnv
    /** `RIL_REQUEST_BASEBAND_VERSION`; its header is not part of this model. */
    const basebandVersion: int

    constructor (env: RilEnv, basebandVersion: int)
      ensures this.env == env && this.basebandVersion == basebandVersion
    {
      this.env, this.basebandVersion := env, basebandVersion;
    }

    /** The two loops of the baseband case; absent when the text is not too long. */
    method Shorten(text: seq<char>) returns (final: Option<array<char>>)
      ensures final.Some? <==> NonSpaces(text) > MAX_LENGTH
      ensures final.Some? ==> fresh(final.value) && final.value[..] == Shortened(text)
    {
      var charCount := 0;
      var m := 0;
      while m < |text|
        invariant 0 <= m <= |text|
        invariant charCount == NonSpaces(text[..m])
      {
        if text[m] != ' ' {
          charCount := charCount + 1;
        }
        m := m + 1;
        assert text[..m][..m - 1] == text[..m - 1];
      }
      assert text[..m] == text;
      var newCharCount := charCount - MAX_LENGTH;
      if newCharCount <= 0 {
        return None;
      }
      var window := new char[MAX_LENGTH];
      m := 0;
      while m < MAX_LENGTH
        invariant 0 <= m <= MAX_LENGTH
        invariant window[..m] == text[newCharCount..newCharCount + m]
      {
        window[m] := text[newCharCount + m];
        m := m + 1;
      }
      final := Some(window);
    }

    /** Every path completes the request exactly once, with the original token,
        error and length.  The completion is passed on as it came when the response
        or the token is absent, the request is another one, or the text has at most
        45 characters other than spaces; otherwise 45 characters of the text, with
        as many behind them as it has spaces, take its place. */
    method OnRequestCompleteShim(c: Completion)
      modifies env
      ensures |env.completions| == |old(env.completions)| + 1
      ensures env.completions[..|old(env.completions)|] == old(env.completions)
      ensures var r := env.completions[|old(env.completions)|];
              if c.response.None? || c.t.None? || c.t.value.requestNumber != basebandVersion
                 || NonSpaces(c.response.value) <= 45
              then r == c
              else
                var s := c.response.value;
                var end := |s| - Spaces(s);
                45 < end <= |s| && r == c.(response := Some(s[end - 45..end]))
    {
      var response := c.response;
      if response.Some? && c.t.Some? && c.t.value.requestNumber == basebandVersion {
        var final := Shorten(response.value);
        ShortUnchanged(response.value);
        if final.Some? {
          WindowPosition(response.value);
          response := Some(final.value[..]);
        }
      }
      env.OnRequestComplete(c.(response := response));
    }
  }

  // ---------- What the window is ----------

  /** The 45 latest characters, which the comment in the code promises. */
  function Latest(s: seq<char>): seq<char>
    requires |s| >= MAX_LENGTH
  {
    s[|s| - MAX_LENGTH..]
  }

  /** Nothing is done to a text that is not long. */
  lemma ShortUnchanged(s: seq<char>)
    ensures NonSpaces(s) <= 45 ==> Shortened(s) == s
  {
  }

  lemma {:induction false} SpacesCounted(s: seq<char>)
    ensures Spaces(s) == multiset(s)[' ']
  {
    if s != [] {
      SpacesCounted(s[..|s| - 1]);
      assert s == s[..|s| - 1] + [s[|s| - 1]];
    }
  }

  /** The window has 45 characters, and exactly as many of the latest characters
      are dropped behind it as the text has spaces. */
  lemma WindowPosition(s: seq<char>)
    requires NonSpaces(s) > MAX_LENGTH
    ensures |Shortened(s)| == 45
    ensures var end := |s| - Spaces(s);
            45 < end <= |s| && Shortened(s) == s[end - 45..end]
            && s == s[..end - 45] + Shortened(s) + s[end..] && |s[end..]| == Spaces(s)
  {
    hide Spaces, NonSpaces;
  }

  // ---------- When the promise is kept ----------

  predicate Kept(s: seq<char>)
    requires |s| >= MAX_LENGTH
  {
    Shortened(s) == Latest(s)
  }

  /** The same positions hold spaces; the other characters are free. */
  predicate SameLayout(s: seq<char>, t: seq<char>) {
    |s| == |t| && forall i | 0 <= i < |s| :: s[i] == ' ' <==> t[i] == ' '
  }

  predicate Blank(s: seq<char>) { forall i | 0 <= i < |s| :: s[i] == ' ' }

  lemma {:induction false} LayoutSpaces(s: seq<char>, t: seq<char>)
    requires SameLayout(s, t)
    ensures Spaces(s) == Spaces(t)
  {
    if s != [] { LayoutSpaces(s[..|s| - 1], t[..|t| - 1]); }
  }

  /** The shim keeps the latest characters of every text with a given layout of
      spaces exactly when the layout has no space, or is blank wherever the window
      and the last 45 positions are, which takes at least 90 spaces. */
  lemma LatestCharactersKept(s: seq<char>)
    requires NonSpaces(s) > MAX_LENGTH
    ensures (forall t | SameLayout(s, t) :: Kept(t)) <==>
            Spaces(s) == 0 || (Blank(Shortened(s)) && Blank(Latest(s)))
    ensures Spaces(s) < 90 ==> ((forall t | SameLayout(s, t) :: Kept(t)) <==> Spaces(s) == 0)
  {
    hide Spaces, NonSpaces, Blank;
    if Spaces(s) > 0 && Blank(Shortened(s)) && Blank(Latest(s)) { BlankNeedsNinety(s); }
    if Spaces(s) == 0 || (Blank(Shortened(s)) && Blank(Latest(s))) {
      forall t | SameLayout(s, t)
        ensures Kept(t)
      {
        KeptByLayout(s, t);
      }
    } else {
      var t := LosingText(s);
      assert SameLayout(s, t) && !Kept(t);
    }
  }

  lemma KeptByLayout(s: seq<char>, t: seq<char>)
    requires NonSpaces(s) > MAX_LENGTH && SameLayout(s, t)
    requires Spaces(s) == 0 || (Blank(Shortened(s)) && Blank(Latest(s)))
    ensures Kept(t)
  {
    hide Spaces, NonSpaces;
    LayoutSpaces(s, t);
    if Spaces(s) > 0 {
      var c := NonSpaces(s);
      assert forall i | c - MAX_LENGTH <= i < c :: s[i] == Shortened(s)[i - (c - MAX_LENGTH)];
      assert forall i | |s| - MAX_LENGTH <= i < |s| :: s[i] == Latest(s)[i - (|s| - MAX_LENGTH)];
    }
  }

  lemma CharactersAt(s: seq<char>, j: nat)
    requires NonSpaces(s) > MAX_LENGTH && j < MAX_LENGTH
    ensures |Shortened(s)| == MAX_LENGTH && Shortened(s)[j] == s[NonSpaces(s) - MAX_LENGTH + j]
    ensures |Latest(s)| == MAX_LENGTH && Latest(s)[j] == s[|s| - MAX_LENGTH + j]
  {
    hide Spaces, NonSpaces;
  }

  /** A text of the same layout on which the promise fails: where window and last
      characters are not both blank, some letter can be changed against its
      counterpart. */
  lemma LosingText(s: seq<char>) returns (t: seq<char>)
    requires NonSpaces(s) > MAX_LENGTH
    requires Spaces(s) > 0 && !(Blank(Shortened(s)) && Blank(Latest(s)))
    ensures SameLayout(s, t) && !Kept(t)
  {
    hide Spaces, NonSpaces, Shortened, Latest;
    t := s;
    if Kept(s) {
      WindowPosition(s);
      var j :| 0 <= j < MAX_LENGTH && Shortened(s)[j] != ' ';
      var p, q := NonSpaces(s) - MAX_LENGTH + j, |s| - MAX_LENGTH + j;
      CharactersAt(s, j);
      t := s[q := if s[p] == 'a' then 'b' else 'a'];
      LayoutSpaces(s, t);
      CharactersAt(t, j);
    }
  }

  lemma {:induction false} BlankIsSpaces(s: seq<char>)
    requires Blank(s)
    ensures Spaces(s) == |s|
  {
    if s != [] { BlankIsSpaces(s[..|s| - 1]); }
  }

  lemma BlankPiece(s: seq<char>, i: nat, j: nat)
    requires i <= j <= |s| && Blank(s[i..j])
    ensures Spaces(s) == Spaces(s[..i]) + (j - i) + Spaces(s[j..])
  {
    hide Spaces;
    BlankIsSpaces(s[i..j]);
    SpacesOfConcat(s[..i], s[i..j]);
    SpacesOfConcat(s[..j], s[j..]);
    assert s[..j] == s[..i] + s[i..j] && s == s[..j] + s[j..];
  }

  lemma BlankNeedsNinety(s: seq<char>)
    requires NonSpaces(s) > MAX_LENGTH && Spaces(s) > 0 && Blank(Shortened(s)) && Blank(Latest(s))
    ensures Spaces(s) >= 90
  {
    hide Spaces, NonSpaces, Blank;
    var c, n := NonSpaces(s), |s|;
    assert s[n - MAX_LENGTH..n] == Latest(s);
    BlankPiece(s, n - MAX_LENGTH, n);
    var front := s[..n - MAX_LENGTH];
    assert front[c - MAX_LENGTH..c] == Shortened(s);
    BlankPiece(front, c - MAX_LENGTH, c);
  }

  // ---------- Texts with few spaces ----------

  predicate Periodic(s: seq<char>, k: nat) { forall i | k <= i < |s| :: s[i] == s[i - k] }

  /** Read position by position, the latest characters are kept when the text
      repeats itself from the window on with the number of spaces as period. */
  lemma KeptMeansPeriodic(s: seq<char>)
    requires NonSpaces(s) > MAX_LENGTH
    ensures Kept(s) <==> Periodic(s[NonSpaces(s) - MAX_LENGTH..], Spaces(s))
  {
    hide Spaces, NonSpaces, Periodic;
    var t, k := s[NonSpaces(s) - MAX_LENGTH..], Spaces(s);
    assert t[..|t| - k] == Shortened(s);
    assert t[k..] == Latest(s);
    ShiftedEqual(t, k);
  }

  /** A text equals itself shifted by `k` exactly when it has period `k`. */
  lemma ShiftedEqual(t: seq<char>, k: nat)
    requires k <= |t|
    ensures t[..|t| - k] == t[k..] <==> Periodic(t, k)
  {
    if t[..|t| - k] == t[k..] {
      forall i | k <= i < |t|
        ensures t[i] == t[i - k]
      {
        assert t[..|t| - k][i - k] == t[k..][i - k];
      }
    }
    if Periodic(t, k) {
      forall i | 0 <= i < |t| - k
        ensures t[..|t| - k][i] == t[k..][i]
      {
        assert t[i + k] == t[i + k - k];
      }
    }
  }

  lemma {:induction false} SpacesOfConcat(s: seq<char>, t: seq<char>)
    ensures Spaces(s + t) == Spaces(s) + Spaces(t)
  {
    if t == [] {
      assert s + t == s;
    } else {
      SpacesOfConcat(s, t[..|t| - 1]);
      assert (s + t)[..|s + t| - 1] == s + t[..|t| - 1];
    }
  }

  lemma {:induction false} NoSpaces(s: seq<char>)
    requires ' ' !in s
    ensures Spaces(s) == 0
  {
    if s != [] { NoSpaces(s[..|s| - 1]); }
  }

  lemma {:induction false} SpaceRepeats(t: seq<char>, k: nat, p: nat, n: nat)
    requires 0 < k && Periodic(t, k) && p < k && p + n * k < |t|
    ensures t[p + n * k] == t[p]
  {
    if n > 0 {
      SpaceRepeats(t, k, p, n - 1);
      assert p + n * k == p + (n - 1) * k + k;
    }
  }

  lemma {:induction false} SpaceOccurs(t: seq<char>, i: nat)
    requires i < |t| && t[i] == ' '
    ensures Spaces(t) >= 1
  {
    if i < |t| - 1 { SpaceOccurs(t[..|t| - 1], i); }
  }

  /** A periodic text with a space has one in every period. */
  lemma {:induction false} SpaceInEveryPeriod(t: seq<char>, k: nat, p: nat, n: nat)
    requires 0 < k && Periodic(t, k) && p < k && n * k <= |t| && p < |t| && t[p] == ' '
    ensures Spaces(t[..n * k]) >= n
  {
    hide Periodic;
    if n > 0 {
      assert n * k == (n - 1) * k + k;
      SpaceInEveryPeriod(t, k, p, n - 1);
      SpaceRepeats(t, k, p, n - 1);
      var block := t[(n - 1) * k..n * k];
      assert block[p] == t[p + (n - 1) * k];
      SpaceOccurs(block, p);
      SpacesOfConcat(t[..(n - 1) * k], block);
      assert t[..n * k] == t[..(n - 1) * k] + block;
    }
  }

  lemma PieceSpaces(s: seq<char>, i: nat, j: nat)
    requires i <= j <= |s|
    ensures Spaces(s[i..j]) <= Spaces(s)
  {
    hide Spaces;
    SpacesOfConcat(s[..i], s[i..j]);
    SpacesOfConcat(s[..j], s[j..]);
    assert s[..j] == s[..i] + s[i..j] && s == s[..j] + s[j..];
  }

  /** A text of 45 + k characters with period k <= 6 has more than k spaces or none. */
  lemma PeriodsNeedSpaces(t: seq<char>, k: nat)
    requires 1 <= k <= 6 && |t| == MAX_LENGTH + k && Periodic(t, k) && ' ' in t
    ensures Spaces(t) > k
  {
    hide Spaces, Periodic;
    var i :| 0 <= i < |t| && t[i] == ' ';
    var p, n := i % k, (k + 1) * k;
    assert i == p + (i / k) * k;
    SpaceRepeats(t, k, p, i / k);
    FewPeriods(k);
    SpaceInEveryPeriod(t, k, p, k + 1);
    assert t[0..n] == t[..n];
    PieceSpaces(t, 0, n);
  }

  /** With one to six spaces, a space in the window or behind it is enough for the
      latest characters to be lost: to keep them, the spaces would have to repeat
      more often than there are spaces. */
  lemma FewSpacesLose(s: seq<char>)
    requires NonSpaces(s) > MAX_LENGTH && 1 <= Spaces(s) <= 6
    requires ' ' in s[NonSpaces(s) - MAX_LENGTH..]
    ensures !Kept(s)
  {
    hide Spaces, NonSpaces, Periodic, Kept;
    var start := NonSpaces(s) - MAX_LENGTH;
    PieceSpaces(s, start, |s|);
    assert s[start..|s|] == s[start..];
    KeptMeansPeriodic(s);
    if Kept(s) {
      PeriodsNeedSpaces(s[start..], Spaces(s));
    }
  }

  lemma FewPeriods(k: nat)
    requires 1 <= k <= 6
    ensures (k + 1) * k <= MAX_LENGTH + k
  {
  }

  /** Letters with a space at every seventh position but the first. */
  function EverySeventh(n: nat): (s: seq<char>)
    ensures |s| == n && forall i | 0 <= i < n :: s[i] == if i > 0 && i % 7 == 0 then ' ' else 'a'
  {
    seq(n, i requires 0 <= i => if i > 0 && i % 7 == 0 then ' ' else 'a')
  }

  lemma {:induction false} SpacesEverySeventh(n: nat)
    requires n > 0
    ensures Spaces(EverySeventh(n)) == (n - 1) / 7
  {
    hide EverySeventh;
    var s := EverySeventh(n);
    if n > 1 {
      SpacesEverySeventh(n - 1);
      assert s[..n - 1] == EverySeventh(n - 1);
    } else {
      assert s == ['a'] && s[..0] == [];
    }
  }

  lemma PeriodSeven(n: nat)
    requires n > 0
    ensures Periodic(EverySeventh(n)[1..], 7)
  {
    hide EverySeventh;
    var s := EverySeventh(n);
    forall i | 7 <= i < n - 1
      ensures s[1..][i] == s[1..][i - 7]
    {
      assert s[1..][i] == s[i + 1] && s[1..][i - 7] == s[i - 6];
      assert (i + 1) % 7 == (i - 6) % 7;
    }
  }

  /** Six is the limit: with seven spaces, in the window and behind it, this text
      keeps its latest characters although the window is seven positions off. */
  lemma SevenSpacesCanKeep()
    ensures var s := EverySeventh(53);
            Spaces(s) == 7 && NonSpaces(s) == 46 && ' ' in s[1..] && Kept(s)
  {
    hide Spaces, EverySeventh, Periodic, Kept, NonSpaces;
    SpacesEverySeventh(53);
    PeriodSeven(53);
    KeptMeansPeriodic(EverySeventh(53));
    assert EverySeventh(53)[1..][6] == ' ';
  }

  /** A text on which the promise fails: 45 letters, a space and another letter.
      The last letter, the most recent character, is dropped. */
  lemma LatestCharacterLost()
    ensures var s := seq(45, _ => 'a') + [' ', 'b'];
            NonSpaces(s) == 46 && 'b' !in Shortened(s) && s[|s| - 1] == 'b'
  {
    var a := seq(45, _ => 'a');
    NoSpaces(a);
    SpacesOfConcat(a, [' ', 'b']);
    assert [' ', 'b'][..1] == [' '] && [' '][..0] == [];
    var s := a + [' ', 'b'];
    assert Shortened(s) == s[1..46];
    assert s[1..46] == a[1..] + [' '];
  }

  /** The framework can only take 45 characters.  What it gets fits exactly when
      the text was short already or has more than 45 characters other than spaces. */
  lemma ResultFits(s: seq<char>)
    ensures |Shortened(s)| <= MAX_LENGTH <==> |s| <= MAX_LENGTH || NonSpaces(s) > MAX_LENGTH
  {
  }
}
