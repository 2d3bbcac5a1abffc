/** The lexical layer under the chat framer: what one event of the XML reader
    is, and how many bytes it takes.

    The reader itself is a library that is not part of this repository; the
    framer only relies on it for the boundaries of text, tags, comments,
    processing instructions and document types, which this module spells out.
    Every scanner works on the bytes still unread, so that a position in the
    stream never has to be carried around. */
module XmlLexer {
  import opened Wrappers

  newtype byte = x: int | 0 <= x < 256
  type Bytes = seq<byte>

  const LT: byte := 60
  const GT: byte := 62
  const SLASH: byte := 47
  const BANG: byte := 33
  const QUESTION: byte := 63
  const DASH: byte := 45
  const APOSTROPHE: byte := 39
  const QUOTE: byte := 34
  const EQUALS: byte := 61
  const COLON: byte := 58
  const COMMENT_END: Bytes := [DASH, DASH, GT]
  const PI_END: Bytes := [QUESTION, GT]

  predicate IsSpace(b: byte) {
    b == 32 || b == 9 || b == 10 || b == 13
  }

  predicate StartsWith(s: Bytes, prefix: Bytes) {
    |prefix| <= |s| && s[..|prefix|] == prefix
  }

  // ---------------------------------------------------------------- scanners

  /** How many bytes from the start belong to the same run of text. */
  function TextEnd(s: Bytes): (n: nat)
    ensures n <= |s|
    ensures forall i :: 0 <= i < n ==> s[i] != LT
    ensures n < |s| ==> s[n] == LT
  {
    if s == [] || s[0] == LT then 0 else 1 + TextEnd(s[1..])
  }

  /** The quote that is open once `b` was read: only the byte that opened it
      closes it. */
  function NextQuote(b: byte, quote: Option<byte>): (next: Option<byte>) {
    match quote
    case Some(q) => if b == q then None else quote
    case None => if b == APOSTROPHE || b == QUOTE then Some(b) else None
  }

  /** Size of the shortest prefix that ends with `>` outside quotes. */
  function TagEnd(s: Bytes, quote: Option<byte>): (r: Option<nat>)
    ensures r.Some? ==> 0 < r.value <= |s| && s[r.value - 1] == GT
  {
    if s == [] then None
    else if quote.None? && s[0] == GT then Some(1)
    else Later(TagEnd(s[1..], NextQuote(s[0], quote)))
  }

  /** Size of the shortest prefix that ends with `pattern`. */
  function FindEnd(s: Bytes, pattern: Bytes): (r: Option<nat>)
    ensures r.Some? ==> |pattern| <= r.value <= |s|
  {
    if StartsWith(s, pattern) then Some(|pattern|)
    else if s == [] then None
    else Later(FindEnd(s[1..], pattern))
  }

  /** Size of the shortest prefix that closes one more `>` than it opens. */
  function DoctypeEnd(s: Bytes, depth: nat): (r: Option<nat>)
    ensures r.Some? ==> 0 < r.value <= |s|
  {
    if s == [] then None
    else if s[0] == GT && depth == 0 then Some(1)
    else Later(DoctypeEnd(s[1..], if s[0] == LT then depth + 1 else if s[0] == GT then depth - 1 else depth))
  }

  function Later(r: Option<nat>): (l: Option<nat>) {
    match r
    case None => None
    case Some(n) => Some(n + 1)
  }

  function Upper(b: byte): (u: byte) {
    if 97 <= b <= 122 then b - 32 else b
  }

  /** `DOCTYPE`, in any letter case. */
  predicate IsDoctypeWord(s: Bytes) {
    |s| >= 7 && seq(7, i requires 0 <= i < 7 => Upper(s[i])) == [68, 79, 67, 84, 89, 80, 69]
  }

  // ------------------------------------------------------------------ tokens

  /** One reader event. Tags keep everything between their brackets. */
  datatype Token =
    | Text
    | Open(content: Bytes)
    | Close(name: Bytes)
    | SelfClosed(content: Bytes)
    | Comment
    | Pi
    | DocType

  /** `Incomplete` is the reader's syntax error: it may go away with more bytes. */
  datatype Lexed = Eof | Incomplete | Tok(token: Token, size: nat)

  /** The bytes before the first white space. */
  function NameOf(content: Bytes): (name: Bytes)
    ensures |name| <= |content| && content[..|name|] == name
    ensures forall i :: 0 <= i < |name| ==> !IsSpace(name[i])
    ensures |name| < |content| ==> IsSpace(content[|name|])
  {
    if content == [] || IsSpace(content[0]) then [] else [content[0]] + NameOf(content[1..])
  }

  function TrimEnd(s: Bytes): (r: Bytes)
    ensures r <= s
    ensures r == [] || !IsSpace(r[|r| - 1])
  {
    if s == [] || !IsSpace(s[|s| - 1]) then s else TrimEnd(s[..|s| - 1])
  }

  /** What the bytes between `<` and `>` say. */
  function TagToken(content: Bytes): (t: Token) {
    if content != [] && content[0] == SLASH then Close(TrimEnd(content[1..]))
    else if content != [] && content[|content| - 1] == SLASH then SelfClosed(content[..|content| - 1])
    else Open(content)
  }

  function Sized(token: Token, skipped: nat, r: Option<nat>): (l: Lexed) {
    match r
    case None => Incomplete
    case Some(n) => Tok(token, skipped + n)
  }

  function LexBang(s: Bytes): (l: Lexed)
    requires |s| >= 2
    ensures l.Tok? ==> 0 < l.size <= |s|
  {
    if |s| >= 4 && s[2] == DASH && s[3] == DASH then Sized(Comment, 4, FindEnd(s[4..], COMMENT_END))
    else if IsDoctypeWord(s[2..]) then Sized(DocType, 2, DoctypeEnd(s[2..], 0))
    else Incomplete
  }

  /** The next event of the reader on the unread bytes `s`. */
  function Lex(s: Bytes): (l: Lexed)
    ensures l.Tok? ==> 0 < l.size <= |s|
    ensures l.Eof? <==> s == []
    ensures l.Tok? && l.token.Text? <==> s != [] && s[0] != LT
  {
    if s == [] then Eof
    else if s[0] != LT then Tok(Text, TextEnd(s))
    else if |s| == 1 then Incomplete
    else if s[1] == BANG then LexBang(s)
    else if s[1] == QUESTION then Sized(Pi, 2, FindEnd(s[2..], PI_END))
    else
      match TagEnd(s, None)
      case None => Incomplete
      case Some(n) => Tok(TagToken(s[1..n - 1]), n)
  }

  // --------------------------------------------- what more bytes cannot change

  lemma {:induction false} TagEndStable(s: Bytes, more: Bytes, quote: Option<byte>)
    requires TagEnd(s, quote).Some?
    ensures TagEnd(s + more, quote) == TagEnd(s, quote)
  {
    assert (s + more)[1..] == s[1..] + more;
    if !(quote.None? && s[0] == GT) {
      TagEndStable(s[1..], more, NextQuote(s[0], quote));
    }
  }

  /** Every quote that opens is closed by its like, and no `>` stands outside. */
  predicate Quoted(s: Bytes)
    decreases |s|
  {
    s == [] ||
    if s[0] == APOSTROPHE || s[0] == QUOTE
    then exists k :: 0 < k < |s| && s[k] == s[0] && s[0] !in s[1..k] && Quoted(s[k + 1..])
    else s[0] != GT && Quoted(s[1..])
  }

  lemma TagEndWithin(s: Bytes, q: byte)
    requires s != []
    ensures TagEnd(s, Some(q)) == Later(TagEnd(s[1..], if s[0] == q then None else Some(q)))
  {
  }

  lemma {:induction false} TagEndInQuotes(s: Bytes, q: byte, k: nat)
    requires k < |s| && s[k] == q && q !in s[..k]
    ensures TagEnd(s, Some(q)) == LaterBy(TagEnd(s[k + 1..], None), k + 1)
  {
    hide TagEnd;
    TagEndWithin(s, q);
    if k > 0 {
      var rest := s[1..];
      assert s[..k][0] == s[0];
      assert rest[..k - 1] == s[..k][1..];
      assert rest[k..] == s[k + 1..];
      TagEndInQuotes(rest, q, k - 1);
    }
  }

  lemma {:induction false} TagEndUnclosed(s: Bytes, q: byte)
    requires q !in s
    ensures TagEnd(s, Some(q)) == None
  {
    if s != [] {
      TagEndUnclosed(s[1..], q);
    }
  }

  lemma {:induction false} FirstOf(s: Bytes, q: byte) returns (k: nat)
    requires q in s
    ensures k < |s| && s[k] == q && q !in s[..k]
  {
    if s[0] == q {
      k := 0;
    } else {
      k := FirstOf(s[1..], q);
      k := k + 1;
      assert s[..k] == [s[0]] + s[1..][..k - 1];
    }
  }

  /** The quote that opens `s` closes at `j` and nowhere before. */
  lemma QuotedPast(s: Bytes, m: nat, j: nat)
    requires 0 < m <= |s| && 0 < j < |s| && (s[0] == APOSTROPHE || s[0] == QUOTE) && s[j] == s[0] && s[0] !in s[1..j]
    ensures Quoted(s[..m]) <==> j < m && Quoted(s[j + 1..m])
  {
    var t := s[..m];
    if j < m {
      assert t[j + 1..] == s[j + 1..m] && t[1..j] == s[1..j];
    }
    assert forall i | 1 <= i < j :: s[1..j][i - 1] == s[i];
    forall k | 0 < k < m && t[k] == t[0] && t[0] !in t[1..k]
      ensures k == j
    {
      assert forall i | 1 <= i < k :: t[1..k][i - 1] == s[i];
    }
  }

  /** A tag ends at the first `>` outside quotes: everything before it is quoted
      or free of `>`. */
  lemma {:induction false} TagEndIff(s: Bytes, n: nat)
    ensures TagEnd(s, None) == Some(n) <==> 0 < n <= |s| && s[n - 1] == GT && Quoted(s[..n - 1])
    decreases |s|
  {
    if s != [] && (s[0] == APOSTROPHE || s[0] == QUOTE) {
      TagEndOpensQuote(s, n);
    } else if s != [] && s[0] != GT && n > 1 {
      TagEndIff(s[1..], n - 1);
      if n <= |s| {
        assert s[..n - 1][1..] == s[1..][..n - 2];
      }
    } else if s != [] && s[0] == GT && 1 < n <= |s| {
      assert s[..n - 1][0] == GT;
    }
  }

  lemma InsideQuotes(s: Bytes, j: nat)
    requires 0 < j < |s| && s[0] !in s[1..j]
    ensures s[0] !in s[1..][..j - 1] && s[1..][j - 1] == s[j] && s[1..][j..] == s[j + 1..]
  {
    assert s[1..][..j - 1] == s[1..j];
  }

  function LaterBy(r: Option<nat>, k: nat): (l: Option<nat>) {
    match r
    case None => None
    case Some(n) => Some(n + k)
  }

  /** The quote that opens `s` closes at `j`: what ends the tag comes after it. */
  lemma TagEndPast(s: Bytes, j: nat)
    requires 0 < j < |s| && (s[0] == APOSTROPHE || s[0] == QUOTE) && s[j] == s[0] && s[0] !in s[1..j]
    ensures TagEnd(s, None) == LaterBy(TagEnd(s[j + 1..], None), j + 1)
  {
    hide TagEnd;
    InsideQuotes(s, j);
    TagEndOpens(s);
    SkipQuotes(s[1..], s[0], j - 1, s[j + 1..]);
  }

  lemma SkipQuotes(rest: Bytes, q: byte, k: nat, tail: Bytes)
    requires k < |rest| && rest[k] == q && q !in rest[..k] && rest[k + 1..] == tail
    ensures TagEnd(rest, Some(q)) == LaterBy(TagEnd(tail, None), k + 1)
  {
    hide TagEnd;
    TagEndInQuotes(rest, q, k);
  }

  lemma TagEndOpens(s: Bytes)
    requires s != [] && (s[0] == APOSTROPHE || s[0] == QUOTE)
    ensures TagEnd(s, None) == Later(TagEnd(s[1..], Some(s[0])))
    ensures TagEnd(s, None) != Some(1)
  {
    hide TagEnd;
    TagEndUnfolds(s);
  }

  lemma TagEndUnfolds(s: Bytes)
    requires s != []
    ensures TagEnd(s, None) == if s[0] == GT then Some(1) else Later(TagEnd(s[1..], NextQuote(s[0], None)))
    ensures TagEnd(s[1..], NextQuote(s[0], None)) != Some(0)
  {
  }

  lemma {:induction false} TagEndOpensQuote(s: Bytes, n: nat)
    requires s != [] && (s[0] == APOSTROPHE || s[0] == QUOTE)
    ensures TagEnd(s, None) == Some(n) <==> 0 < n <= |s| && s[n - 1] == GT && Quoted(s[..n - 1])
    decreases |s|, 0
  {
    hide TagEnd, Quoted;
    TagEndOpens(s);
    QuotedNothing(s, n);
    if s[0] in s[1..] {
      var i := FirstOf(s[1..], s[0]);
      var j := i + 1;
      assert s[1..][..i] == s[1..j];
      TagEndPast(s, j);
      if 1 < n <= |s| {
        QuotedPast(s, n - 1, j);
      }
      if j + 1 < n {
        TagEndIff(s[j + 1..], n - j - 1);
        if n <= |s| {
          assert s[j + 1..][..n - j - 2] == s[j + 1..n - 1];
        }
      }
    } else {
      TagEndUnclosed(s[1..], s[0]);
      Unclosed(s, n);
    }
  }

  lemma QuotedNothing(s: Bytes, n: nat)
    requires s != [] && (s[0] == APOSTROPHE || s[0] == QUOTE)
    ensures n == 1 ==> s[n - 1] != GT
  {
  }

  lemma Unclosed(s: Bytes, n: nat)
    requires s != [] && (s[0] == APOSTROPHE || s[0] == QUOTE) && s[0] !in s[1..]
    ensures !(0 < n <= |s| && s[n - 1] == GT && Quoted(s[..n - 1]))
  {
    assert forall k | 0 < k < |s| :: s[1..][k - 1] == s[k];
    if 1 < n <= |s| {
      assert s[..n - 1][0] == s[0];
    }
  }

  lemma {:induction false} TagEndCut(s: Bytes, n: nat, quote: Option<byte>)
    requires TagEnd(s, quote).Some? && TagEnd(s, quote).value <= n <= |s|
    ensures TagEnd(s[..n], quote) == TagEnd(s, quote)
  {
    assert s[..n][1..] == s[1..][..n - 1];
    if !(quote.None? && s[0] == GT) {
      TagEndCut(s[1..], n - 1, NextQuote(s[0], quote));
    }
  }

  predicate EndsAt(s: Bytes, pattern: Bytes, n: nat) {
    |pattern| <= n <= |s| && s[n - |pattern|..n] == pattern
  }

  ghost predicate FirstEnd(s: Bytes, pattern: Bytes, n: nat) {
    EndsAt(s, pattern, n) && forall m: nat | m < n :: !EndsAt(s, pattern, m)
  }

  lemma EndsAtTail(s: Bytes, pattern: Bytes, m: nat)
    requires s != [] && !StartsWith(s, pattern)
    ensures EndsAt(s, pattern, m) <==> m > 0 && EndsAt(s[1..], pattern, m - 1)
  {
    if |pattern| < m <= |s| {
      assert s[1..][m - 1 - |pattern|..m - 1] == s[m - |pattern|..m];
    } else if m == |pattern| <= |s| {
      assert s[m - |pattern|..m] == s[..|pattern|];
    }
  }

  lemma FirstEndTail(s: Bytes, pattern: Bytes, n: nat)
    requires s != [] && !StartsWith(s, pattern) && n > 0
    ensures FirstEnd(s, pattern, n) <==> FirstEnd(s[1..], pattern, n - 1)
  {
    hide EndsAt;
    EndsAtTail(s, pattern, n);
    EndsAtTail(s, pattern, 0);
    forall m: nat | m < n
      ensures m > 0 ==> (EndsAt(s, pattern, m) <==> EndsAt(s[1..], pattern, m - 1))
    {
      EndsAtTail(s, pattern, m);
    }
    if FirstEnd(s, pattern, n) {
      forall m: nat | m < n - 1
        ensures !EndsAt(s[1..], pattern, m)
      {
        EndsAtTail(s, pattern, m + 1);
      }
    }
  }

  /** A comment or instruction ends at the first place where its end stands. */
  lemma {:induction false} FindEndIff(s: Bytes, pattern: Bytes, n: nat)
    ensures FindEnd(s, pattern) == Some(n) <==> FirstEnd(s, pattern, n)
  {
    if StartsWith(s, pattern) {
      assert EndsAt(s, pattern, |pattern|);
    } else if s != [] {
      EndsAtTail(s, pattern, n);
      if n > 0 {
        FirstEndTail(s, pattern, n);
        hide EndsAt;
        FindEndIff(s[1..], pattern, n - 1);
      }
    }
  }

  lemma {:induction false} FindEndStable(s: Bytes, more: Bytes, pattern: Bytes)
    requires FindEnd(s, pattern).Some?
    ensures FindEnd(s + more, pattern) == FindEnd(s, pattern)
  {
    if StartsWith(s, pattern) {
      assert (s + more)[..|pattern|] == s[..|pattern|];
    } else {
      assert (s + more)[1..] == s[1..] + more;
      FindEndStable(s[1..], more, pattern);
      assert FindEnd(s[1..], pattern).value >= |pattern|;
      assert (s + more)[..|pattern|] == s[..|pattern|];
    }
  }

  lemma {:induction false} FindEndCut(s: Bytes, n: nat, pattern: Bytes)
    requires FindEnd(s, pattern).Some? && FindEnd(s, pattern).value <= n <= |s|
    ensures FindEnd(s[..n], pattern) == FindEnd(s, pattern)
  {
    assert s[..n][..|pattern|] == s[..|pattern|];
    if !StartsWith(s, pattern) {
      assert s[..n][1..] == s[1..][..n - 1];
      FindEndCut(s[1..], n - 1, pattern);
    }
  }

  lemma {:induction false} DoctypeEndStable(s: Bytes, more: Bytes, depth: nat)
    requires DoctypeEnd(s, depth).Some?
    ensures DoctypeEnd(s + more, depth) == DoctypeEnd(s, depth)
  {
    assert (s + more)[1..] == s[1..] + more;
    if !(s[0] == GT && depth == 0) {
      DoctypeEndStable(s[1..], more, if s[0] == LT then depth + 1 else if s[0] == GT then depth - 1 else depth);
    }
  }

  lemma {:induction false} DoctypeEndCut(s: Bytes, n: nat, depth: nat)
    requires DoctypeEnd(s, depth).Some? && DoctypeEnd(s, depth).value <= n <= |s|
    ensures DoctypeEnd(s[..n], depth) == DoctypeEnd(s, depth)
  {
    assert s[..n][1..] == s[1..][..n - 1];
    if !(s[0] == GT && depth == 0) {
      DoctypeEndCut(s[1..], n - 1, if s[0] == LT then depth + 1 else if s[0] == GT then depth - 1 else depth);
    }
  }

  lemma {:induction false} TextEndOf(s: Bytes, n: nat)
    requires n <= |s| && (forall i :: 0 <= i < n ==> s[i] != LT) && (n < |s| ==> s[n] == LT)
    ensures TextEnd(s) == n
  {
    if n > 0 {
      TextEndOf(s[1..], n - 1);
    }
  }

  /** An event that is not a run of text at the very end of the bytes stays the
      same event whatever arrives later. */
  lemma LexStable(s: Bytes, more: Bytes)
    requires Lex(s).Tok? && (Lex(s).token.Text? ==> Lex(s).size < |s|)
    ensures Lex(s + more) == Lex(s)
  {
    var t := s + more;
    if s[0] != LT {
      TextEndOf(t, TextEnd(s));
    } else if s[1] == BANG {
      if |s| >= 4 && s[2] == DASH && s[3] == DASH {
        assert t[4..] == s[4..] + more;
        FindEndStable(s[4..], more, COMMENT_END);
      } else {
        assert t[2..] == s[2..] + more;
        DoctypeEndStable(s[2..], more, 0);
        DoctypeWordSame(s[2..], t[2..]);
      }
    } else if s[1] == QUESTION {
      assert t[2..] == s[2..] + more;
      FindEndStable(s[2..], more, PI_END);
    } else {
      TagEndStable(s, more, None);
      var n := TagEnd(s, None).value;
      assert t[1..n - 1] == s[1..n - 1];
    }
  }

  /** An event depends on its own bytes only. */
  lemma LexCut(s: Bytes, n: nat)
    requires Lex(s).Tok? && Lex(s).size <= n <= |s|
    ensures Lex(s[..n]) == Lex(s)
  {
    hide TagToken;
    var t := s[..n];
    if s[0] != LT {
      TextEndOf(t, TextEnd(s));
    } else if s[1] == BANG {
      if |s| >= 4 && s[2] == DASH && s[3] == DASH {
        assert t[4..] == s[4..][..n - 4];
        FindEndCut(s[4..], n - 4, COMMENT_END);
      } else {
        DoctypeWordSize(s[2..]);
        assert t[2..] == s[2..][..n - 2];
        DoctypeEndCut(s[2..], n - 2, 0);
        DoctypeWordSame(s[2..], t[2..]);
      }
    } else if s[1] == QUESTION {
      assert t[2..] == s[2..][..n - 2];
      FindEndCut(s[2..], n - 2, PI_END);
    } else {
      TagEndCut(s, n, None);
      var m := TagEnd(s, None).value;
      assert t[1..m - 1] == s[1..m - 1];
    }
  }

  const DOCTYPE: Bytes := [68, 79, 67, 84, 89, 80, 69]

  /** The word is read in capitals, small letters or any mixture. */
  lemma DoctypeAnyCase(s: Bytes)
    requires |s| >= 7
    ensures IsDoctypeWord(s) <==> forall i :: 0 <= i < 7 ==> s[i] == DOCTYPE[i] || s[i] == DOCTYPE[i] + 32
  {
    var word := seq(7, i requires 0 <= i < 7 => Upper(s[i]));
    assert word == DOCTYPE <==> forall i :: 0 <= i < 7 ==> word[i] == DOCTYPE[i];
    assert forall i :: 0 <= i < 7 ==> word[i] == Upper(s[i]);
    assert forall i :: 0 <= i < 7 ==> 65 <= DOCTYPE[i] <= 90;
  }

  lemma DoctypeWordSame(s: Bytes, t: Bytes)
    requires IsDoctypeWord(s) && |t| >= 7 && t[..7] == s[..7]
    ensures IsDoctypeWord(t) && t[0] != DASH
  {
    var word := seq(7, i requires 0 <= i < 7 => Upper(s[i]));
    assert forall i :: 0 <= i < 7 ==> t[i] == t[..7][i] == s[..7][i] == s[i];
    assert seq(7, i requires 0 <= i < 7 => Upper(t[i])) == word;
    assert Upper(s[0]) == word[0] == 68;
  }

  /** No bracket hides inside the word DOCTYPE. */
  lemma DoctypeWordSize(s: Bytes)
    requires IsDoctypeWord(s) && DoctypeEnd(s, 0).Some?
    ensures DoctypeEnd(s, 0).value > 7
  {
    assert forall i :: 0 <= i < 7 ==> Upper(s[i]) == seq(7, j requires 0 <= j < 7 => Upper(s[j]))[i];
    assert forall i :: 0 <= i < 7 ==> s[i] != GT && s[i] != LT;
    DoctypeEndAfter(s, 7);
  }

  lemma {:induction false} DoctypeEndAfter(s: Bytes, k: nat)
    requires k <= |s| && (forall i :: 0 <= i < k ==> s[i] != GT && s[i] != LT) && DoctypeEnd(s, 0).Some?
    ensures DoctypeEnd(s, 0).value > k
  {
    if k > 0 {
      DoctypeEndAfter(s[1..], k - 1);
    }
  }
}
