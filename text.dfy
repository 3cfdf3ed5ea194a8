/** The string operations of Python that the LDraw parser and the part
    aggregator rely on: `str.upper()`, `' '.join(...)`, and the slices
    `s[:-4]` / `s[-4:]` that split a file name from its suffix. */
module Text {

  datatype Option<+T> = None | Some(value: T)

  /** `str.upper()` on one character; only ASCII letters are folded. */
  function UpperChar(c: char): char {
    if 'a' <= c <= 'z' then (c as int - 32) as char else c
  }

  /** `s.upper()` */
  function Upper(s: string): string {
    seq(|s|, i requires 0 <= i < |s| => UpperChar(s[i]))
  }

  /** `' '.join(words)` */
  function Join(words: seq<string>): string {
    if |words| == 0 then ""
    else if |words| == 1 then words[0]
    else words[0] + " " + Join(words[1..])
  }

  /** Joining two non-empty word lists puts exactly one space between them. */
  lemma {:induction false} JoinConcat(a: seq<string>, b: seq<string>)
    requires |a| > 0 && |b| > 0
    ensures Join(a + b) == Join(a) + " " + Join(b)
  {
    if |a| == 1 {
      assert (a + b)[1..] == b;
    } else {
      assert (a + b)[1..] == a[1..] + b;
      JoinConcat(a[1..], b);
    }
  }

  /** Where `s[:-4]` ends and `s[-4:]` starts (Python clamps at 0). */
  function SuffixStart(s: string): nat {
    if |s| >= 4 then |s| - 4 else 0
  }

  /** `s[:-4]` */
  function DropSuffix(s: string): string {
    s[..SuffixStart(s)]
  }

  /** `s[-4:]` */
  function Suffix(s: string): string {
    s[SuffixStart(s)..]
  }
}
