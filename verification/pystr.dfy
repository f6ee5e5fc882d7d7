/**
 * The parts of Python's `str` that the record reader relies on:
 * `str.isspace`, `str.strip`, and the way iterating over a text file
 * splits its contents into lines.
 */
module PyStr {
  import Sequences

  /** Python's `str.isspace` on one character: the ASCII controls TAB..CR,
      the separators FS..US, SPACE, NEL, NBSP, and the Unicode space
      separators, line separator and paragraph separator. */
  predicate IsSpace(c: char)
  {
    var n := c as int;
    || (0x09 <= n <= 0x0D)
    || (0x1C <= n <= 0x20)
    || n == 0x85 || n == 0xA0 || n == 0x1680
    || (0x2000 <= n <= 0x200A)
    || n == 0x2028 || n == 0x2029 || n == 0x202F || n == 0x205F || n == 0x3000
  }

  /** `s.lstrip()`: drop the leading run of whitespace. */
  function LStrip(s: string): (r: string)
    ensures |r| <= |s| && r == s[|s| - |r|..]
    ensures forall i :: 0 <= i < |s| - |r| ==> IsSpace(s[i])
    ensures r == [] || !IsSpace(r[0])
    decreases |s|
  {
    if |s| > 0 && IsSpace(s[0]) then LStrip(s[1..]) else s
  }

  /** `s.rstrip()`: drop the trailing run of whitespace. */
  function RStrip(s: string): (r: string)
    ensures |r| <= |s| && r == s[..|r|]
    ensures forall i :: |r| <= i < |s| ==> IsSpace(s[i])
    ensures r == [] || !IsSpace(r[|r| - 1])
    decreases |s|
  {
    if |s| > 0 && IsSpace(s[|s| - 1]) then RStrip(s[..|s| - 1]) else s
  }

  /** `s.strip()`: the middle of `s` between its leading and trailing
      whitespace. */
  function Strip(s: string): (r: string)
  {
    RStrip(LStrip(s))
  }

  /** `not s.strip()`: the line holds nothing but whitespace. */
  predicate IsBlank(s: string)
  {
    Strip(s) == []
  }

  /** A line is blank exactly when every character of it is whitespace. */
  lemma BlankIffAllSpace(s: string)
    ensures IsBlank(s) <==> forall i :: 0 <= i < |s| ==> IsSpace(s[i])
  {
    var l := LStrip(s);
    if IsBlank(s) {
      // RStrip(l) is empty, so every character of l is a space; LStrip
      // promises l does not start with one, hence l is empty.
      assert l == [];
      forall i | 0 <= i < |s| ensures IsSpace(s[i]) {
        assert i < |s| - |l|;
      }
    } else {
      var r := Strip(s);
      assert r[0] == l[0] == s[|s| - |l|];
    }
  }

  /** Stripping a token that already has no whitespace at either end, after
      a line terminator has been added, gives back the token. */
  lemma StripTerminatedToken(s: string)
    requires |s| > 0 && !IsSpace(s[0]) && !IsSpace(s[|s| - 1])
    ensures Strip(s + "\n") == s
  {
    var t := s + "\n";
    assert LStrip(t) == t;
    assert IsSpace(t[|t| - 1]);
    assert t[..|t| - 1] == s;
    assert RStrip(s) == s;
  }

  /** Length of the first line of `t` as Python's file iteration yields it:
      up to and including the first '\n', or the whole text if there is
      none. */
  function LineLength(t: string): (n: nat)
    requires |t| > 0
    ensures 0 < n <= |t|
    ensures forall i :: 0 <= i < n - 1 ==> t[i] != '\n'
    ensures n < |t| ==> t[n - 1] == '\n'
  {
    if t[0] == '\n' || |t| == 1 then 1 else 1 + LineLength(t[1..])
  }

  /** `list(f)` for a text file `f` whose contents are `t`: every line keeps
      its '\n' terminator; a last line without one is still yielded. */
  function Lines(t: string): (r: seq<string>)
    decreases |t|
  {
    if t == [] then [] else
    var n := LineLength(t);
    [t[..n]] + Lines(t[n..])
  }

  /** Concatenation of a sequence of lines, i.e. the text they came from. */
  function Join(lines: seq<string>): string
  {
    if lines == [] then [] else lines[0] + Join(lines[1..])
  }

  /** One line as file iteration yields it: not empty, no '\n' before its
      last character, and ending in '\n' unless it is the file's last line. */
  predicate IsLine(l: string, last: bool)
  {
    && |l| > 0
    && (forall i :: 0 <= i < |l| - 1 ==> l[i] != '\n')
    && (!last ==> l[|l| - 1] == '\n')
  }

  /** Splitting into lines loses nothing and cuts only after each '\n':
      the lines join back to the text and each is a line. */
  lemma {:induction false} LinesPartition(t: string)
    ensures Join(Lines(t)) == t
    ensures forall k :: 0 <= k < |Lines(t)| ==> IsLine(Lines(t)[k], k == |Lines(t)| - 1)
    decreases |t|
  {
    if t != [] {
      var n := LineLength(t);
      var first := t[..n];
      var rest := Lines(t[n..]);
      LinesPartition(t[n..]);
      assert Lines(t) == [first] + rest;
      assert first + t[n..] == t;
      assert rest != [] ==> n < |t|;
      forall k | 0 <= k < |Lines(t)| ensures IsLine(Lines(t)[k], k == |Lines(t)| - 1) {
        if k > 0 {
          assert Lines(t)[k] == rest[k - 1];
        }
      }
    }
  }

  /** The first line is exactly the given prefix when that prefix ends in its
      only '\n'. */
  lemma {:induction false} LineLengthAtTerminator(t: string, n: nat)
    requires 0 < n <= |t| && t[n - 1] == '\n'
    requires forall i :: 0 <= i < n - 1 ==> t[i] != '\n'
    ensures LineLength(t) == n
  {
    if n > 1 {
      LineLengthAtTerminator(t[1..], n - 1);
    }
  }

  /** A '\n'-terminated text keeps its first line when more text follows. */
  lemma FirstLineOfAppend(a: string, b: string)
    requires a != [] && a[|a| - 1] == '\n'
    ensures LineLength(a + b) == LineLength(a)
    ensures (a + b)[..LineLength(a)] == a[..LineLength(a)]
    ensures (a + b)[LineLength(a)..] == a[LineLength(a)..] + b
  {
    var n := LineLength(a);
    var ab := a + b;
    assert ab[n - 1] == a[n - 1] == '\n';
    LineLengthAtTerminator(ab, n);
  }

  /** Text that ends with a line terminator splits independently of what is
      appended after it: this is why appending to a '\n'-terminated file
      adds whole lines. */
  lemma {:induction false} LinesAppend(a: string, b: string)
    requires a == [] || a[|a| - 1] == '\n'
    ensures Lines(a + b) == Lines(a) + Lines(b)
    decreases |a|
  {
    if a == [] {
      assert a + b == b;
    } else {
      var n := LineLength(a);
      FirstLineOfAppend(a, b);
      LinesAppend(a[n..], b);
      Sequences.ConsAppend(a[..n], Lines(a[n..]), Lines(b));
      calc {
        Lines(a + b);
        [(a + b)[..n]] + Lines((a + b)[n..]);
        [a[..n]] + (Lines(a[n..]) + Lines(b));
        ([a[..n]] + Lines(a[n..])) + Lines(b);
        Lines(a) + Lines(b);
      }
    }
  }

  /** A string without '\n', once terminated, is read back as one line. */
  lemma SingleLine(s: string)
    requires forall i :: 0 <= i < |s| ==> s[i] != '\n'
    ensures Lines(s + "\n") == [s + "\n"]
  {
    var t := s + "\n";
    LineLengthAtTerminator(t, |t|);
    assert t[|t|..] == [];
    assert t[..|t|] == t;
  }
}
