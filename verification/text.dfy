/**
 String helpers: JavaScript's `String.prototype.trim`, which the generator applies to the
 assembled report, and the line and field splitting the report readers use.
 */
module Text {
  import opened Maybe

  /**
   The code points ECMAScript's `trim` removes: the WhiteSpace production (tab, vertical tab,
   form feed, space, no-break space, byte order mark and every space separator) and the
   LineTerminator production (line feed, carriage return, line and paragraph separators).
   */
  predicate IsTrimmable(c: char) {
    var n := c as int;
    n == 0x09 || n == 0x0A || n == 0x0B || n == 0x0C || n == 0x0D || n == 0x20 || n == 0xA0
    || n == 0x1680 || (0x2000 <= n <= 0x200A) || n == 0x2028 || n == 0x2029
    || n == 0x202F || n == 0x205F || n == 0x3000 || n == 0xFEFF
  }

  /** How many trimmable characters `s` starts with. */
  function LeadingTrimmable(s: string): (k: nat)
    ensures k <= |s|
    ensures forall i :: 0 <= i < k ==> IsTrimmable(s[i])
    ensures k < |s| ==> !IsTrimmable(s[k])
  {
    if |s| == 0 || !IsTrimmable(s[0]) then 0 else 1 + LeadingTrimmable(s[1..])
  }

  /** How many trimmable characters `s` ends with. */
  function TrailingTrimmable(s: string): (k: nat)
    ensures k <= |s|
    ensures forall i :: |s| - k <= i < |s| ==> IsTrimmable(s[i])
    ensures k < |s| ==> !IsTrimmable(s[|s| - k - 1])
  {
    if |s| == 0 || !IsTrimmable(s[|s| - 1]) then 0 else 1 + TrailingTrimmable(s[..|s| - 1])
  }

  /** `s.trim()`: the text between the leading and the trailing trimmable characters. */
  function Trim(s: string): (r: string)
    ensures |r| > 0 ==> !IsTrimmable(r[0]) && !IsTrimmable(r[|r| - 1])
    ensures r == [] <==> forall i :: 0 <= i < |s| ==> IsTrimmable(s[i])
    ensures exists a, b :: (0 <= a <= b <= |s| && r == s[a..b]
      && (forall i :: 0 <= i < a ==> IsTrimmable(s[i]))
      && (forall i :: b <= i < |s| ==> IsTrimmable(s[i])))
  {
    var a := LeadingTrimmable(s);
    var t := s[a..];
    var b := a + |t| - TrailingTrimmable(t);
    var r := t[..|t| - TrailingTrimmable(t)];
    assert r == s[a..b];
    assert forall i :: b <= i < |s| ==> IsTrimmable(s[i]) by {
      forall i | b <= i < |s| ensures IsTrimmable(s[i]) {
        assert s[i] == t[i - a];
      }
    }
    assert forall i :: 0 <= i < a ==> IsTrimmable(s[i]);
    r
  }

  /** Trimming a text whose ends are not trimmable, after which one line feed was written, drops only that line feed. */
  lemma TrimDropsFinalLineFeed(x: string)
    requires |x| > 0 && !IsTrimmable(x[0]) && !IsTrimmable(x[|x| - 1])
    ensures Trim(x + "\n") == x
  {
    var s := x + "\n";
    assert LeadingTrimmable(s) == 0;
    assert s[..|s| - 1] == x;
    assert TrailingTrimmable(s) == 1;
  }

  /**
   Trimming a header, a body and a footer drops only the footer's final line feed, when the
   header starts and the footer ends, before that line feed, with characters trim keeps.
   */
  lemma TrimSections(header: string, body: string, footer: string)
    requires |header| > 0 && !IsTrimmable(header[0])
    requires |footer| > 1 && footer[|footer| - 1] == '\n' && !IsTrimmable(footer[|footer| - 2])
    ensures Trim(header + body + footer) + "\n" == header + body + footer
  {
    var s := header + body + footer;
    var x := s[..|s| - 1];
    assert s == x + "\n";
    assert x[0] == header[0];
    assert x[|x| - 1] == footer[|footer| - 2];
    TrimDropsFinalLineFeed(x);
  }

  /** `parts` written one after the other with `sep` between neighbours. */
  function Join(parts: seq<string>, sep: char): string
    requires |parts| > 0
  {
    if |parts| == 1 then parts[0] else parts[0] + [sep] + Join(parts[1..], sep)
  }

  /** The position of the first `c` in `s`. */
  function IndexOf(s: string, c: char): (k: nat)
    requires c in s
    ensures k < |s| && s[k] == c && c !in s[..k]
  {
    if s[0] == c then 0 else 1 + IndexOf(s[1..], c)
  }

  /** `s` cut at every `sep`: the pieces carry no separator and join back to `s`. */
  function Split(s: string, sep: char): (parts: seq<string>)
    ensures |parts| > 0
    ensures forall i :: 0 <= i < |parts| ==> sep !in parts[i]
    ensures Join(parts, sep) == s
    decreases |s|
  {
    if sep !in s then [s]
    else
      var k := IndexOf(s, sep);
      var rest := Split(s[k + 1..], sep);
      assert ([s[..k]] + rest)[1..] == rest;
      assert s == s[..k] + [sep] + s[k + 1..];
      [s[..k]] + rest
  }

  /** Splitting undoes joining, as long as no piece contains the separator. */
  lemma {:induction false} SplitJoin(parts: seq<string>, sep: char)
    requires |parts| > 0
    requires forall i :: 0 <= i < |parts| ==> sep !in parts[i]
    ensures Split(Join(parts, sep), sep) == parts
    decreases |parts|
  {
    if |parts| > 1 {
      var p := parts[0];
      var rest := Join(parts[1..], sep);
      var s := p + [sep] + rest;
      assert s[|p|] == sep;
      var k := IndexOf(s, sep);
      assert k == |p|;
      assert s[..k] == p;
      assert s[k + 1..] == rest;
      SplitJoin(parts[1..], sep);
      assert [p] + parts[1..] == parts;
    }
  }

  /** Each line followed by a line feed: how every section of the report is written. */
  function Terminated(lines: seq<string>): string {
    if |lines| == 0 then "" else lines[0] + "\n" + Terminated(lines[1..])
  }

  lemma {:induction false} TerminatedAppend(a: seq<string>, b: seq<string>)
    ensures Terminated(a + b) == Terminated(a) + Terminated(b)
    decreases |a|
  {
    if |a| > 0 {
      assert (a + b)[1..] == a[1..] + b;
      TerminatedAppend(a[1..], b);
    } else {
      assert a + b == b;
    }
  }

  /** Terminated lines followed by an unterminated last line are those lines joined by line feeds. */
  lemma {:induction false} TerminatedThenLast(lines: seq<string>, last: string)
    ensures Terminated(lines) + last == Join(lines + [last], '\n')
    decreases |lines|
  {
    if |lines| > 0 {
      assert (lines + [last])[1..] == lines[1..] + [last];
      TerminatedThenLast(lines[1..], last);
    } else {
      assert lines + [last] == [last];
    }
  }

  /** The text between `prefix` and `suffix`, when `s` starts with one and ends with the other. */
  function Between(s: string, prefix: string, suffix: string): (r: Option<string>)
    ensures r.Some? ==> s == prefix + r.value + suffix
  {
    if |prefix| + |suffix| <= |s| && s[..|prefix|] == prefix && s[|s| - |suffix|..] == suffix
    then
      var m := s[|prefix|..|s| - |suffix|];
      assert s == s[..|prefix|] + m + s[|s| - |suffix|..];
      Some(m)
    else None
  }

  lemma BetweenOfConcat(prefix: string, m: string, suffix: string)
    ensures Between(prefix + m + suffix, prefix, suffix) == Some(m)
  {
    var s := prefix + m + suffix;
    assert s[..|prefix|] == prefix;
    assert s[|s| - |suffix|..] == suffix;
    assert s[|prefix|..|s| - |suffix|] == m;
  }
}
