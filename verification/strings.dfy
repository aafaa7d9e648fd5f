/** The two Python string operations the chatbot applies to every incoming
    message: `str.strip()` with no argument and `str.lower()`, plus the
    exit-word test built from them. */
module Strings {

  /** Python's `str.isspace()`: the characters `str.strip()` removes when it
      is called without an argument. Ordinary blanks and line breaks are in
      it; letters and digits are not. */
  predicate IsSpace(c: char): (b: bool)
    ensures c == ' ' || c == '\t' || c == '\n' || c == '\r' ==> b
    ensures 'a' <= c <= 'z' || 'A' <= c <= 'Z' || '0' <= c <= '9' ==> !b
  {
    var n := c as int;
    (0x09 <= n <= 0x0D) || (0x1C <= n <= 0x20) || n == 0x85 || n == 0xA0 ||
    n == 0x1680 || (0x2000 <= n <= 0x200A) || n == 0x2028 || n == 0x2029 ||
    n == 0x202F || n == 0x205F || n == 0x3000
  }

  predicate AllSpace(s: string) {
    forall i :: 0 <= i < |s| ==> IsSpace(s[i])
  }

  /** A string that `strip()` leaves alone: no white space at either end. */
  predicate IsStripped(s: string) {
    s == [] || (!IsSpace(s[0]) && !IsSpace(s[|s| - 1]))
  }

  /** `str.lstrip()`: `s` without its leading white space. */
  function TrimStart(s: string): (r: string)
    ensures |r| <= |s|
    ensures r == [] || !IsSpace(r[0])
    decreases |s|
  {
    if s != [] && IsSpace(s[0]) then TrimStart(s[1..]) else s
  }

  /** What `lstrip()` keeps is a suffix of `s`, and all it cuts off is white
      space. */
  lemma {:induction false} TrimStartIsSuffix(s: string)
    ensures TrimStart(s) == s[|s| - |TrimStart(s)|..]
    ensures AllSpace(s[..|s| - |TrimStart(s)|])
    decreases |s|
  {
    if s != [] && IsSpace(s[0]) {
      TrimStartIsSuffix(s[1..]);
      assert s[1..][|s| - 1 - |TrimStart(s)|..] == s[|s| - |TrimStart(s)|..];
    }
  }

  /** `str.rstrip()`: `s` without its trailing white space. */
  function TrimEnd(s: string): (r: string)
    ensures |r| <= |s|
    ensures r == [] || !IsSpace(r[|r| - 1])
    decreases |s|
  {
    if s != [] && IsSpace(s[|s| - 1]) then TrimEnd(s[..|s| - 1]) else s
  }

  /** What `rstrip()` keeps is a prefix of `s`, and all it cuts off is white
      space. */
  lemma {:induction false} TrimEndIsPrefix(s: string)
    ensures TrimEnd(s) == s[..|TrimEnd(s)|]
    ensures AllSpace(s[|TrimEnd(s)|..])
    decreases |s|
  {
    if s != [] && IsSpace(s[|s| - 1]) {
      TrimEndIsPrefix(s[..|s| - 1]);
      assert s[..|s| - 1][..|TrimEnd(s)|] == s[..|TrimEnd(s)|];
    }
  }

  /** `str.strip()`: `s` with the white space at both ends removed; nothing
      is left to strip. */
  function Strip(s: string): (r: string)
    ensures IsStripped(r)
    ensures |r| <= |s|
  {
    var t := TrimStart(s);
    TrimEndIsPrefix(t);
    TrimEnd(t)
  }

  /** `strip()` only cuts white space off the two ends: the result is the
      piece of `s` between a white-space prefix and a white-space suffix. */
  lemma {:induction false} StripIsTrimmedSlice(s: string)
    ensures var r := Strip(s);
      var i := |s| - |TrimStart(s)|;
      && i + |r| <= |s| && r == s[i..i + |r|]
      && AllSpace(s[..i]) && AllSpace(s[i + |r|..])
  {
    var t := TrimStart(s);
    var r := TrimEnd(t);
    var i := |s| - |t|;
    TrimStartIsSuffix(s);
    TrimEndIsPrefix(t);
    assert t == s[i..];
    assert s[i + |r|..] == t[|r|..];
  }

  /** Removing white-space padding around an already stripped text gives that
      text back: `strip()` recovers exactly what was padded. */
  lemma {:induction false} StripRemovesPadding(pre: string, core: string, post: string)
    requires AllSpace(pre) && AllSpace(post) && IsStripped(core)
    ensures Strip(pre + core + post) == core
  {
    if core == [] {
      var s := pre + core + post;
      assert AllSpace(s) by {
        assert s == pre + post;
      }
      TrimStartIsSuffix(s);
      assert TrimStart(s) == [];
    } else {
      assert pre + core + post == pre + (core + post);
      TrimStartOfPadded(pre, core + post);
      TrimEndOfPadded(core, post);
    }
  }

  lemma {:induction false} TrimStartOfPadded(pre: string, rest: string)
    requires AllSpace(pre)
    requires rest == [] || !IsSpace(rest[0])
    ensures TrimStart(pre + rest) == rest
    decreases |pre|
  {
    if pre != [] {
      assert (pre + rest)[1..] == pre[1..] + rest;
      TrimStartOfPadded(pre[1..], rest);
    }
  }

  lemma {:induction false} TrimEndOfPadded(rest: string, post: string)
    requires AllSpace(post)
    requires rest == [] || !IsSpace(rest[|rest| - 1])
    ensures TrimEnd(rest + post) == rest
    decreases |post|
  {
    if post != [] {
      assert (rest + post)[..|rest + post| - 1] == rest + post[..|post| - 1];
      TrimEndOfPadded(rest, post[..|post| - 1]);
    } else {
      assert rest + post == rest;
    }
  }

  /** Stripping twice is the same as stripping once. */
  lemma StripIdempotent(s: string)
    ensures Strip(Strip(s)) == Strip(s)
  {
  }

  /** `str.lower()` on one character. Only the ASCII letters are mapped; see
      the README for why that is enough for the exit-word test. */
  function LowerChar(c: char): char {
    if 'A' <= c <= 'Z' then (c as int - 'A' as int + 'a' as int) as char else c
  }

  function Lower(s: string): (r: string)
    ensures |r| == |s|
  {
    seq(|s|, i requires 0 <= i < |s| => LowerChar(s[i]))
  }

  const ExitWords: seq<string> := ["exit", "quit", "bye"]

  /** `message.lower() in ["exit", "quit", "bye"]`. Only a three- or
      four-letter message with no white space at either end can pass. */
  predicate IsExitWord(message: string): (b: bool)
    ensures b ==> |message| == 3 || |message| == 4
    ensures b ==> IsStripped(message)
  {
    var w := Lower(message);
    assert w in ExitWords ==> w[0] == LowerChar(message[0]) && w[|w| - 1] == LowerChar(message[|w| - 1]);
    w in ExitWords
  }

  /** The exit test ignores case: a message is an exit word exactly when its
      lower-case form is one, and only three- or four-letter messages can be. */
  lemma {:induction false} ExitWordIgnoresCase(message: string)
    ensures IsExitWord(message) <==> IsExitWord(Lower(message))
    ensures IsExitWord(message) ==> |message| == 3 || |message| == 4
  {
    assert Lower(Lower(message)) == Lower(message) by {
      forall i | 0 <= i < |message|
        ensures Lower(Lower(message))[i] == Lower(message)[i]
      {
      }
    }
  }

  /** Exit words are recognised in any mix of cases. */
  lemma ExitWordExamples()
    ensures IsExitWord("EXIT") && IsExitWord("bYe")
    ensures !IsExitWord("exits")
  {
    assert Lower("EXIT") == "exit" by {
      forall i | 0 <= i < 4 ensures Lower("EXIT")[i] == "exit"[i] { }
    }
    assert Lower("bYe") == "bye" by {
      forall i | 0 <= i < 3 ensures Lower("bYe")[i] == "bye"[i] { }
    }
  }

  /** An exit word surrounded by white space is still an exit word once the
      message has been stripped. */
  lemma {:induction false} PaddedExitWord(pre: string, word: string, post: string)
    requires AllSpace(pre) && AllSpace(post)
    requires Lower(word) in ExitWords
    ensures IsExitWord(Strip(pre + word + post))
  {
    var w := Lower(word);
    assert w[0] == LowerChar(word[0]) && w[|w| - 1] == LowerChar(word[|word| - 1]);
    assert !IsSpace(w[0]) && !IsSpace(w[|w| - 1]);
    StripRemovesPadding(pre, word, post);
  }
}
