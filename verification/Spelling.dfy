/** What the headers of a message ask for, written out letter by letter. */
module Spelling {
  import opened Text
  import opened Messages

  // No statement about names, keep-alive and body length below goes through the lookup, the
  // case folding or the decision functions of the program; lemmas say that they agree.

  const UPPER: string := "ABCDEFGHIJKLMNOPQRSTUVWXYZ"
  const LOWER: string := "abcdefghijklmnopqrstuvwxyz"

  // ---------------------------------------------------------------------------------
  // Letters and names
  // ---------------------------------------------------------------------------------

  /** The same byte, or the two cases of one of the 26 letters. */
  predicate SameLetter(a: char, b: char) {
    a == b || exists i :: 0 <= i < 26 && {a, b} == {UPPER[i], LOWER[i]}
  }

  lemma Alphabet()
    ensures forall i :: 0 <= i < 26 ==> UPPER[i] as int == 65 + i && LOWER[i] as int == 97 + i
  {
  }

  /** Case folding identifies exactly the two cases of a letter. */
  lemma SameLetterExactly(a: char, b: char)
    ensures ToLower(a) == ToLower(b) <==> SameLetter(a, b)
  {
    Alphabet();
    if a != b && ToLower(a) == ToLower(b) {
      var i := ToLower(a) as int - 97;
      assert {a, b} == {UPPER[i], LOWER[i]};
    }
    if a != b && SameLetter(a, b) {
      var i :| 0 <= i < 26 && {a, b} == {UPPER[i], LOWER[i]};
      assert a in {UPPER[i], LOWER[i]} && b in {UPPER[i], LOWER[i]};
    }
  }

  /** White space is the space and the five control characters from tab to carriage return. */
  lemma SpaceExactly(c: char)
    ensures IsSpace(c) <==> c as int == 32 || 9 <= c as int <= 13
  {
  }

  predicate Spelled(a: string, b: string) {
    |a| == |b| && forall k :: 0 <= k < |a| ==> SameLetter(a[k], b[k])
  }

  lemma SpelledExactly(a: string, b: string)
    ensures SameName(a, b) <==> Spelled(a, b)
  {
    if |a| == |b| {
      forall k | 0 <= k < |a|
        ensures Lower(a)[k] == Lower(b)[k] <==> SameLetter(a[k], b[k])
      {
        SameLetterExactly(a[k], b[k]);
      }
      if Spelled(a, b) {
        assert Lower(a) == Lower(b);
      }
    } else {
      assert |Lower(a)| != |Lower(b)|;
    }
  }

  /** `word` occurs in `s` in any case. */
  ghost predicate Mentions(s: string, word: string) {
    exists i :: 0 <= i <= |s| && MentionedAt(s, word, i)
  }

  predicate MentionedAt(s: string, word: string, i: nat) {
    i + |word| <= |s| && forall k :: 0 <= k < |word| ==> SameLetter(s[i + k], word[k])
  }

  lemma MentionedAtExactly(s: string, word: string, i: nat)
    requires forall k :: 0 <= k < |word| ==> ToLower(word[k]) == word[k]
    ensures MatchAt(Lower(s), word, i) <==> MentionedAt(s, word, i)
  {
    if i + |word| <= |s| {
      var part := Lower(s)[i..i + |word|];
      forall k | 0 <= k < |word|
        ensures part[k] == word[k] <==> SameLetter(s[i + k], word[k])
      {
        SameLetterExactly(s[i + k], word[k]);
      }
      if MentionedAt(s, word, i) {
        assert part == word;
      }
    }
  }

  lemma MentionsExactly(s: string, word: string)
    requires forall k :: 0 <= k < |word| ==> ToLower(word[k]) == word[k]
    ensures Contains(Lower(s), word) <==> Mentions(s, word)
  {
    forall i | 0 <= i <= |s|
      ensures MatchAt(Lower(s), word, i) <==> MentionedAt(s, word, i)
    {
      MentionedAtExactly(s, word, i);
    }
  }

  // ---------------------------------------------------------------------------------
  // The first header of a name
  // ---------------------------------------------------------------------------------

  /** Header `i` is the first one called `name`. */
  ghost predicate First(headers: seq<Header>, name: string, i: nat) {
    i < |headers| && Spelled(headers[i].name, name) && forall j :: 0 <= j < i ==> !Spelled(headers[j].name, name)
  }

  ghost predicate Missing(headers: seq<Header>, name: string) {
    forall i :: 0 <= i < |headers| ==> !Spelled(headers[i].name, name)
  }

  lemma {:induction false} FirstOrMissing(headers: seq<Header>, name: string) returns (i: nat)
    ensures Missing(headers, name) ==> FindHeader(headers, name) == None
    ensures !Missing(headers, name) ==> First(headers, name, i) && FindHeader(headers, name) == Some(headers[i].value)
  {
    i := 0;
    if headers != [] {
      SpelledExactly(headers[0].name, name);
      if !Spelled(headers[0].name, name) {
        var rest := FirstOrMissing(headers[1..], name);
        i := rest + 1;
        forall j | 0 <= j < |headers| && Spelled(headers[j].name, name)
          ensures !Missing(headers[1..], name) && i < |headers|
        {
          assert headers[1..][j - 1] == headers[j];
        }
        if !Missing(headers, name) {
          assert headers[1..][rest] == headers[i];
          forall j | 0 <= j < i
            ensures !Spelled(headers[j].name, name)
          {
            assert j > 0 ==> headers[1..][j - 1] == headers[j];
          }
        }
      }
    }
  }

  lemma FirstIsUnique(headers: seq<Header>, name: string, i: nat, j: nat)
    requires First(headers, name, i) && First(headers, name, j)
    ensures i == j
  {
  }

  /** The lookup returns the value of the first header of that name, in any case, and nothing
      exactly when there is none. */
  lemma FindHeaderExactly(headers: seq<Header>, name: string)
    ensures FindHeader(headers, name).None? <==> Missing(headers, name)
    ensures forall i: nat :: First(headers, name, i) ==> FindHeader(headers, name) == Some(headers[i].value)
  {
    var i := FirstOrMissing(headers, name);
    forall j: nat | First(headers, name, j)
      ensures FindHeader(headers, name) == Some(headers[j].value)
    {
      FirstIsUnique(headers, name, i, j);
    }
  }

  // ---------------------------------------------------------------------------------
  // Keep-alive
  // ---------------------------------------------------------------------------------

  /** The sender wants the connection closed: the first Connection header mentions "close", or
      the sender speaks HTTP/1.0 and no first Connection header mentions "keep-alive". */
  ghost predicate WantsClose(headers: seq<Header>, old_: bool) {
    if Missing(headers, "Connection") then old_
    else exists i: nat :: First(headers, "Connection", i) && AsksToClose(headers[i].value, old_)
  }

  ghost predicate AsksToClose(value: string, old_: bool) {
    Mentions(value, "close") || (old_ && !Mentions(value, "keep-alive"))
  }

  lemma KeepAliveExactly(headers: seq<Header>, version: string)
    ensures KeepAlive(headers, version) <==> !WantsClose(headers, version != "HTTP/1.1")
  {
    var i := FirstOrMissing(headers, "Connection");
    if !Missing(headers, "Connection") {
      var v := headers[i].value;
      MentionsExactly(v, "close");
      MentionsExactly(v, "keep-alive");
      forall j: nat | First(headers, "Connection", j)
        ensures j == i
      {
        FirstIsUnique(headers, "Connection", i, j);
      }
    }
  }

  /** An HTTP/1.0 client is closed unless it says otherwise, and may say so in any case. */
  lemma OldClients()
    ensures !KeepAlive([], "HTTP/1.0") && KeepAlive([], "HTTP/1.1")
    ensures KeepAlive([Header("Connection", "Keep-Alive")], "HTTP/1.0")
    ensures !KeepAlive([Header("CONNECTION", "keep-alive, Close")], "HTTP/1.1")
  {
    var kept, closed := [Header("Connection", "Keep-Alive")], [Header("CONNECTION", "keep-alive, Close")];
    assert Lower("Keep-Alive") == "keep-alive" && MatchAt("keep-alive", "keep-alive", 0);
    NoCloseInKeepAlive();
    assert Lower("CONNECTION") == Lower("Connection");
    assert Lower("keep-alive, Close") == "keep-alive, close" && MatchAt("keep-alive, close", "close", 12);
    assert FindHeader(kept, "Connection") == Some("Keep-Alive");
    assert FindHeader(closed, "Connection") == Some("keep-alive, Close");
  }
}
