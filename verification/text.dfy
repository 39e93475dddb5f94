/**
 * The Go string helpers the handlers rely on: strings.Fields,
 * strings.SplitN(s, "|", 2) and strings.HasPrefix, over Unicode text.
 */
module Text {

  /** unicode.IsSpace: the White_Space code points. */
  predicate IsSpace(c: char)
  {
    var n := c as int;
    (0x09 <= n <= 0x0D) || n == 0x20 || n == 0x85 || n == 0xA0 || n == 0x1680
    || (0x2000 <= n <= 0x200A) || n == 0x2028 || n == 0x2029 || n == 0x202F
    || n == 0x205F || n == 0x3000
  }

  predicate NoSpace(s: string) { forall i :: 0 <= i < |s| ==> !IsSpace(s[i]) }

  /** Length of the run of non-space characters that starts s. */
  function WordLength(s: string): (n: nat)
    ensures n <= |s|
    ensures NoSpace(s[..n])
    ensures n < |s| ==> IsSpace(s[n])
    decreases |s|
  {
    if s == [] || IsSpace(s[0]) then 0 else 1 + WordLength(s[1..])
  }

  /** s with its white space removed. */
  function NonSpace(s: string): string
    decreases |s|
  {
    if s == [] then [] else (if IsSpace(s[0]) then [] else [s[0]]) + NonSpace(s[1..])
  }

  /** The tokens joined with nothing between them. */
  function Concat(ws: seq<string>): string
    decreases |ws|
  {
    if ws == [] then [] else ws[0] + Concat(ws[1..])
  }

  /**
   * The number of maximal runs of non-space characters in s: a run starts at
   * a non-space character that opens s (afterSpace) or follows white space.
   */
  function RunsFrom(s: string, afterSpace: bool): nat
    decreases |s|
  {
    if s == [] then 0
    else (if afterSpace && !IsSpace(s[0]) then 1 else 0) + RunsFrom(s[1..], IsSpace(s[0]))
  }

  function Runs(s: string): nat { RunsFrom(s, true) }

  /** A leading word of length n comes out of NonSpace unchanged. */
  lemma {:induction false} NonSpaceWord(s: string, n: nat)
    requires n <= |s| && NoSpace(s[..n])
    ensures NonSpace(s) == s[..n] + NonSpace(s[n..])
    decreases n
  {
    if n > 0 {
      assert !IsSpace(s[0]);
      assert s[1..][..n - 1] == s[1..n];
      assert s[1..][n - 1..] == s[n..];
      NonSpaceWord(s[1..], n - 1);
      assert s[..n] == [s[0]] + s[1..n];
    }
  }

  /** Inside a word no new run starts before the white space that ends it. */
  lemma {:induction false} RunsInWord(s: string, k: nat, n: nat)
    requires 1 <= k <= n <= |s| && NoSpace(s[..n])
    requires n < |s| ==> IsSpace(s[n])
    ensures RunsFrom(s[k..], false) == RunsFrom(s[n..], true)
    decreases n - k
  {
    if k < n {
      assert s[k..][0] == s[k] && !IsSpace(s[k]);
      assert s[k..][1..] == s[k + 1..];
      RunsInWord(s, k + 1, n);
    } else if n < |s| {
      assert s[n..][1..] == s[n + 1..];
    }
  }

  /**
   * strings.Fields: the maximal runs of non-space characters, in order. The
   * tokens are nonempty and space-free; FieldsJoinAndCount, FieldsOfWord and
   * FieldsSplitAtSpace state the rest, and the last two together with
   * Fields("") == [] determine the result.
   */
  function Fields(s: string): (r: seq<string>)
    ensures forall i :: 0 <= i < |r| ==> |r[i]| > 0 && NoSpace(r[i])
    decreases |s|
  {
    if s == [] then []
    else if IsSpace(s[0]) then Fields(s[1..])
    else
      var n := WordLength(s);
      [s[..n]] + Fields(s[n..])
  }

  /** Leading white space is skipped. */
  lemma FieldsSkipSpace(s: string)
    requires |s| > 0 && IsSpace(s[0])
    ensures Fields(s) == Fields(s[1..])
  {
  }

  /** A leading word is the first field. */
  lemma FieldsTakeWord(s: string)
    requires |s| > 0 && !IsSpace(s[0])
    ensures Fields(s) == [s[..WordLength(s)]] + Fields(s[WordLength(s)..])
  {
  }

  /**
   * The fields joined give s without its white space, and there are as
   * many fields as s has maximal non-space runs.
   */
  lemma {:induction false} FieldsJoinAndCount(s: string)
    ensures Concat(Fields(s)) == NonSpace(s)
    ensures |Fields(s)| == Runs(s)
    decreases |s|
  {
    if s == [] {
    } else if IsSpace(s[0]) {
      FieldsSkipSpace(s);
      FieldsJoinAndCount(s[1..]);
    } else {
      var n := WordLength(s);
      var rest := Fields(s[n..]);
      FieldsTakeWord(s);
      FieldsJoinAndCount(s[n..]);
      NonSpaceWord(s, n);
      RunsInWord(s, 1, n);
      assert ([s[..n]] + rest)[1..] == rest;
    }
  }

  lemma {:induction false} WordLengthOfWord(w: string, rest: string)
    requires NoSpace(w)
    requires rest == [] || IsSpace(rest[0])
    ensures WordLength(w + rest) == |w|
    decreases |w|
  {
    if w != [] {
      assert (w + rest)[1..] == w[1..] + rest;
      WordLengthOfWord(w[1..], rest);
    }
  }

  /**
   * A command and one argument separated by a single space split into
   * exactly those two fields: the text a deep link "?start=<arg>" makes the
   * messaging platform deliver, "/start <arg>", reads back as ["/start", arg].
   */
  lemma {:induction false} FieldsOfCommand(cmd: string, arg: string)
    requires |cmd| > 0 && NoSpace(cmd)
    requires |arg| > 0 && NoSpace(arg)
    ensures Fields(cmd + " " + arg) == [cmd, arg]
  {
    var s := cmd + " " + arg;
    assert s[|cmd|] == ' ';
    FieldsSplitAtSpace(s, |cmd|);
    assert s[..|cmd|] == cmd && s[|cmd| + 1..] == arg;
    FieldsOfWord(cmd);
    FieldsOfWord(arg);
  }

  /** A nonempty text without white space is a single field. */
  lemma {:induction false} FieldsOfWord(w: string)
    requires |w| > 0 && NoSpace(w)
    ensures Fields(w) == [w]
  {
    assert w + [] == w;
    WordLengthOfWord(w, []);
    assert w[..|w|] == w && w[|w|..] == [];
  }

  /** A word ends at or before any white space. */
  lemma {:induction false} WordEndsBySpace(s: string, k: nat)
    requires k < |s| && IsSpace(s[k])
    ensures WordLength(s) <= k
    decreases k
  {
    if !IsSpace(s[0]) {
      assert s[1..][k - 1] == s[k];
      WordEndsBySpace(s[1..], k - 1);
    }
  }

  /** White space anywhere separates fields: the fields of s are those before it followed by those after it. */
  lemma {:induction false} FieldsSplitAtSpace(s: string, k: nat)
    requires k < |s| && IsSpace(s[k])
    ensures Fields(s) == Fields(s[..k]) + Fields(s[k + 1..])
    decreases |s|, 1
  {
    if IsSpace(s[0]) {
      SplitAfterSpace(s, k);
    } else {
      SplitAfterWord(s, k);
    }
  }

  /** FieldsSplitAtSpace when s opens with white space. */
  lemma {:induction false} SplitAfterSpace(s: string, k: nat)
    requires k < |s| && IsSpace(s[k]) && IsSpace(s[0])
    ensures Fields(s) == Fields(s[..k]) + Fields(s[k + 1..])
    decreases |s|, 0
  {
    FieldsSkipSpace(s);
    if k == 0 {
      assert s[..0] == [] && s[1..] == s[k + 1..];
    } else {
      assert Fields(s[1..]) == Fields(s[1..k]) + Fields(s[k + 1..]) by {
        FieldsSplitAtSpace(s[1..], k - 1);
        assert s[1..][..k - 1] == s[1..k] && s[1..][k..] == s[k + 1..];
      }
      assert Fields(s[..k]) == Fields(s[1..k]) by {
        FieldsSkipSpace(s[..k]);
        assert s[..k][1..] == s[1..k];
      }
    }
  }

  /** Cutting s at white space keeps its leading word as the first field. */
  lemma {:induction false} FieldsOfPrefix(s: string, k: nat)
    requires k < |s| && IsSpace(s[k]) && !IsSpace(s[0])
    ensures WordLength(s) <= k
    ensures Fields(s[..k]) == [s[..WordLength(s)]] + Fields(s[WordLength(s)..k])
  {
    var n := WordLength(s);
    WordEndsBySpace(s, k);
    assert s[..k] == s[..n] + s[n..k];
    WordLengthOfWord(s[..n], s[n..k]);
    FieldsTakeWord(s[..k]);
    assert s[..k][..n] == s[..n] && s[..k][n..] == s[n..k];
  }

  /** FieldsSplitAtSpace when s opens with a word. */
  lemma {:induction false} SplitAfterWord(s: string, k: nat)
    requires k < |s| && IsSpace(s[k]) && !IsSpace(s[0])
    ensures Fields(s) == Fields(s[..k]) + Fields(s[k + 1..])
    decreases |s|, 0
  {
    var n := WordLength(s);
    WordEndsBySpace(s, k);
    assert Fields(s) == [s[..n]] + Fields(s[n..]) by {
      FieldsTakeWord(s);
    }
    FieldsOfPrefix(s, k);
    assert Fields(s[n..]) == Fields(s[n..k]) + Fields(s[k + 1..]) by {
      if n == k {
        assert s[n..k] == [];
        FieldsSkipSpace(s[k..]);
        assert s[k..][1..] == s[k + 1..];
      } else {
        FieldsSplitAtSpace(s[n..], k - n);
        assert s[n..][..k - n] == s[n..k] && s[n..][k - n + 1..] == s[k + 1..];
      }
    }
  }

  /** The index of the first occurrence of c in s, if any. */
  function IndexOf(s: string, c: char): (r: nat)
    ensures r <= |s|
    ensures forall i :: 0 <= i < r ==> s[i] != c
    ensures r < |s| ==> s[r] == c
    decreases |s|
  {
    if s == [] then 0 else if s[0] == c then 0 else 1 + IndexOf(s[1..], c)
  }

  /**
   * strings.SplitN(s, "|", 2): the text before the first '|' and the text
   * after it, or s alone when it holds no '|'.
   */
  function SplitPipe2(s: string): (r: seq<string>)
    ensures |r| == 1 || |r| == 2
    ensures |r| == 1 <==> '|' !in s
    ensures |r| == 1 ==> r[0] == s
    ensures |r| == 2 ==> s == r[0] + "|" + r[1] && '|' !in r[0]
  {
    var i := IndexOf(s, '|');
    if i == |s| then [s]
    else
      assert s == s[..i] + "|" + s[i + 1..];
      [s[..i], s[i + 1..]]
  }

  /** Splitting at the first '|' recovers the parts it was joined from. */
  lemma SplitPipe2Join(a: string, b: string)
    requires '|' !in a
    ensures SplitPipe2(a + "|" + b) == [a, b]
  {
    var s := a + "|" + b;
    assert s[|a|] == '|';
    assert forall i :: 0 <= i < |a| ==> s[i] == a[i];
    var i := IndexOf(s, '|');
    assert i == |a|;
    assert s[..i] == a;
    assert s[i + 1..] == b;
  }

  /** strings.HasPrefix. */
  predicate HasPrefix(s: string, prefix: string)
  {
    |prefix| <= |s| && s[..|prefix|] == prefix
  }

  /**
   * Characters encoding/json writes unescaped inside a string: printable
   * ASCII except the quote, the backslash and the HTML-sensitive '<', '>'
   * and '&'. The user ids of the model (UUID text) consist of these.
   */
  predicate IsPlainChar(c: char)
  {
    ' ' <= c <= '~' && c != '"' && c != '\\' && c != '<' && c != '>' && c != '&'
  }

  predicate IsPlainText(s: string) { forall i :: 0 <= i < |s| ==> IsPlainChar(s[i]) }

  type PlainText = s: string | IsPlainText(s)
}
