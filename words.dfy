/** Text handling the chat server relies on: Python's argument-less
    `str.split()` and the recovery of a chat peer's name from the
    `availability` label "chatting with <name>". */
module Words {

  datatype Option<T> = None | Some(value: T)

  /** The characters for which Python's `str.isspace()` holds; `str.split()`
      with no argument splits on runs of exactly these. */
  predicate IsSpace(c: char)
  {
    var n := c as int;
    (9 <= n <= 13) || (0x1c <= n <= 0x20) || n == 0x85 || n == 0xa0 ||
    n == 0x1680 || (0x2000 <= n <= 0x200a) || n == 0x2028 || n == 0x2029 ||
    n == 0x202f || n == 0x205f || n == 0x3000
  }

  predicate NoSpace(s: string)
  {
    forall i :: 0 <= i < |s| ==> !IsSpace(s[i])
  }

  /** The longest prefix of `s` that holds no whitespace. */
  function TakeWord(s: string): (w: string)
    ensures |w| <= |s| && w == s[..|w|]
    ensures NoSpace(w)
    ensures |w| < |s| ==> IsSpace(s[|w|])
  {
    if s == [] || IsSpace(s[0]) then [] else [s[0]] + TakeWord(s[1..])
  }

  /** A string made only of whitespace (possibly empty). */
  predicate AllSpace(s: string)
  {
    forall i :: 0 <= i < |s| ==> IsSpace(s[i])
  }

  /** The characters of `s` that are not whitespace, in order. */
  function NonBlank(s: string): string
  {
    if s == [] then [] else (if IsSpace(s[0]) then [] else [s[0]]) + NonBlank(s[1..])
  }

  /** The words of `ws` written one after another. */
  function Concat(ws: seq<string>): string
  {
    if ws == [] then [] else ws[0] + Concat(ws[1..])
  }

  lemma {:induction false} NonBlankAppend(a: string, b: string)
    ensures NonBlank(a + b) == NonBlank(a) + NonBlank(b)
  {
    if a == [] {
      assert a + b == b;
    } else {
      assert (a + b)[0] == a[0];
      assert (a + b)[1..] == a[1..] + b;
      NonBlankAppend(a[1..], b);
    }
  }

  lemma {:induction false} NonBlankOfWord(w: string)
    requires NoSpace(w)
    ensures NonBlank(w) == w
  {
    if w != [] {
      assert NoSpace(w[1..]) by {
        assert forall i :: 0 <= i < |w[1..]| ==> w[1..][i] == w[i + 1];
      }
      NonBlankOfWord(w[1..]);
    }
  }

  /** Python's `s.split()`: the maximal whitespace-free runs of `s`, in order.
      Each word is non-empty and blank-free, and together the words are the
      non-blank characters of `s`; SplitOneWord, SplitBlanksThen and
      SplitWordThenBlank pin down where the cuts fall. */
  function Split(s: string): (r: seq<string>)
    ensures forall i :: 0 <= i < |r| ==> r[i] != [] && NoSpace(r[i])
    ensures Concat(r) == NonBlank(s)
    decreases |s|
  {
    if s == [] then []
    else if IsSpace(s[0]) then
      assert NonBlank(s) == NonBlank(s[1..]);
      Split(s[1..])
    else
      var w := TakeWord(s);
      var rest := Split(s[|w|..]);
      assert s == w + s[|w|..];
      NonBlankAppend(w, s[|w|..]);
      NonBlankOfWord(w);
      assert ([w] + rest)[0] == w && ([w] + rest)[1..] == rest;
      [w] + rest
  }

  /** The availability label a session carries while it negotiates or holds
      a private chat (Server.py:103-104); LabelWords gives its words. */
  function ChattingWith(name: string): string
  {
    "chatting with " + name
  }

  /** `availability.split()[2]`, with `None` where Python raises IndexError
      (Server.py:110, Server.py:129). */
  function PeerName(availability: string): (peer: Option<string>)
    ensures peer.Some? ==> peer.value != [] && NoSpace(peer.value)
  {
    var ws := Split(availability);
    if |ws| >= 3 then Some(ws[2]) else None
  }

  /** A whitespace-free word is its own only word. */
  lemma {:induction false} SplitOneWord(w: string)
    requires w != [] && NoSpace(w)
    ensures Split(w) == [w]
  {
    var t := TakeWord(w);
    assert t == w;
    assert w[|w|..] == [];
  }

  /** Leading whitespace contributes no word. */
  lemma {:induction false} SplitBlanksThen(b: string, rest: string)
    requires AllSpace(b)
    ensures Split(b + rest) == Split(rest)
  {
    if b == [] {
      assert b + rest == rest;
    } else {
      var s := b + rest;
      assert s[0] == b[0] && IsSpace(s[0]);
      assert s[1..] == b[1..] + rest;
      SplitBlanksThen(b[1..], rest);
    }
  }

  /** A word followed by a whitespace character splits off as the first word. */
  lemma {:induction false} SplitWordThenBlank(w: string, c: char, rest: string)
    requires w != [] && NoSpace(w) && IsSpace(c)
    ensures Split(w + [c] + rest) == [w] + Split(rest)
  {
    var s := w + [c] + rest;
    var t := TakeWord(s);
    assert s[0] == w[0] && !IsSpace(s[0]);
    assert |t| >= |w| by {
      assert forall i :: 0 <= i < |w| ==> s[i] == w[i] && !IsSpace(s[i]);
    }
    assert |t| <= |w| by {
      assert s[|w|] == c && IsSpace(s[|w|]);
    }
    assert t == s[..|w|] == w;
    var tail := s[|w|..];
    assert tail == [c] + rest;
    assert tail[0] == c && IsSpace(tail[0]);
    assert tail[1..] == rest;
    assert Split(tail) == Split(rest);
  }

  lemma LabelPrefixWords()
    ensures "chatting" != [] && NoSpace("chatting") && "with" != [] && NoSpace("with")
  {
  }

  /** The words of a chat label are "chatting", "with" and the words of the name. */
  lemma LabelWords(name: string)
    ensures Split(ChattingWith(name)) == ["chatting", "with"] + Split(name)
  {
    LabelPrefixWords();
    LabelSpelling(name);
    SplitWordThenBlank("chatting", ' ', "with" + " " + name);
    SplitWordThenBlank("with", ' ', name);
  }

  lemma LabelSpelling(name: string)
    ensures "chatting with " + name == "chatting" + [' '] + ("with" + [' '] + name)
  {
    assert "chatting with " == "chatting" + " " + "with" + " ";
  }

  /** The peer recovered from a chat label is the first word of the name it
      was built from, and there is none when the name is all whitespace. */
  lemma PeerNameOfLabel(name: string)
    ensures PeerName(ChattingWith(name)) ==
      (if Split(name) == [] then None else Some(Split(name)[0]))
  {
    LabelWords(name);
  }

  /** For a non-empty name without whitespace, the label names it exactly. */
  lemma PeerNameRoundTrip(name: string)
    requires name != [] && NoSpace(name)
    ensures PeerName(ChattingWith(name)) == Some(name)
  {
    PeerNameOfLabel(name);
    SplitOneWord(name);
  }

  /** A name holding a blank is recovered as its first word only. */
  lemma PeerNameTruncatesBlankName()
    ensures PeerName(ChattingWith("bob smith")) == Some("bob")
  {
    assert NoSpace("bob") && NoSpace("smith");
    assert "bob smith" == "bob" + [' '] + "smith";
    SplitWordThenBlank("bob", ' ', "smith");
    SplitOneWord("smith");
    PeerNameOfLabel("bob smith");
  }

  /** A name made only of blanks leaves the label with two words: the peer
      lookup raises IndexError. */
  lemma PeerNameOfBlankName()
    ensures PeerName(ChattingWith(" ")) == None
  {
    assert IsSpace(" "[0]);
    assert " "[1..] == [];
    assert Split(" ") == [];
    PeerNameOfLabel(" ");
  }
}
