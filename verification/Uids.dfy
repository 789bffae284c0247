/**
 User ids (handlers/auth.utils.go, GenerateUID): a few letters taken from the email address, or a word of
 the list, and random digits up to 12 characters. The random bytes are parameters; int has 64 bits.
 */
module Uids {
  import opened Decimal
  import opened Naming

  const WORDS_0: seq<string> :=
    ["apple", "banana", "cherry", "dragon", "eagle", "falcon", "grape", "honey", "ivory", "jungle"]
  const WORDS_1: seq<string> :=
    ["koala", "lemon", "mango", "noble", "ocean", "panda", "queen", "river", "storm", "tiger"]
  const WORDS_2: seq<string> :=
    ["ultra", "vivid", "whale", "xenon", "yacht", "zebra", "alpha", "brave", "coral", "delta"]
  const WORDS_3: seq<string> :=
    ["ember", "frost", "ghost", "haven", "index", "joker", "karma", "lunar", "maple", "nexus"]
  const WORDS_4: seq<string> :=
    ["orbit", "pixel", "quest", "radar", "solar", "terra", "unity", "venom", "wired", "zesty"]
  const WORD_LIST: seq<string> := WORDS_0 + WORDS_1 + WORDS_2 + WORDS_3 + WORDS_4

  predicate AllLower(s: string) {
    forall i :: 0 <= i < |s| ==> IsLower(s[i])
  }

  predicate IsLetter(c: char) { IsLower(c) || IsUpper(c) }

  // The letters of s, in lower case.
  function Letters(s: string): (r: string)
    ensures AllLower(r) && |r| <= |s|
  {
    if s == "" then ""
    else
      var last := s[|s| - 1];
      Letters(s[..|s| - 1]) + if IsLetter(last) then [LowerChar(last)] else ""
  }

  // Where the first '@' at or after i is; 0 if there is none.
  function FindAt(email: string, i: nat): (at: nat)
    requires i <= |email|
    ensures at > 0 ==> i <= at < |email| && email[at] == '@' && '@' !in email[i..at]
    ensures at == 0 && i > 0 ==> '@' !in email[i..]
    decreases |email| - i
  {
    if i == |email| then 0 else if email[i] == '@' then i else FindAt(email, i + 1)
  }

  // What precedes the first '@'; nothing when there is no '@'.
  function LocalPart(email: string): (s: string)
    ensures '@' !in email ==> s == ""
    ensures '@' in email ==> '@' !in s && |s| < |email| && email[..|s|] == s && email[|s|] == '@'
  {
    LocalPartEnds(email);
    email[..FindAt(email, 0)]
  }

  lemma LocalPartEnds(email: string)
    ensures var at := FindAt(email, 0);
            && ('@' !in email ==> at == 0)
            && ('@' in email ==> at < |email| && email[at] == '@' && '@' !in email[..at])
  {
    if email != "" && email[0] != '@' && FindAt(email, 0) == 0 {
      assert FindAt(email, 1) == 0;
      assert email == [email[0]] + email[1..];
    }
  }

  // The letters an id begins with.
  function Prefix(email: string, wordByte: byte): (p: string)
    ensures 4 <= |p| <= 6 && AllLower(p)
  {
    var letters := Letters(LocalPart(email));
    WordsAreWords();
    if |letters| >= 4 then letters[..if |letters| < 6 then |letters| else 6] else WORD_LIST[wordByte as int % 50]
  }

  predicate IsWord(w: string) {
    4 <= |w| <= 6 && AllLower(w)
  }

  predicate AllWords(ws: seq<string>) {
    forall i :: 0 <= i < |ws| ==> IsWord(ws[i])
  }

  lemma WordsAreWords()
    ensures |WORD_LIST| == 50 && AllWords(WORD_LIST)
  {
    Words0();
    Words1();
    Words2();
    Words3();
    Words4();
    hide WORDS_0, WORDS_1, WORDS_2, WORDS_3, WORDS_4;
  }

  lemma Words0()
    ensures |WORDS_0| == 10 && AllWords(WORDS_0)
  {
  }

  lemma Words1()
    ensures |WORDS_1| == 10 && AllWords(WORDS_1)
  {
  }

  lemma Words2()
    ensures |WORDS_2| == 10 && AllWords(WORDS_2)
  {
  }

  lemma Words3()
    ensures |WORDS_3| == 10 && AllWords(WORDS_3)
  {
  }

  lemma Words4()
    ensures |WORDS_4| == 10 && AllWords(WORDS_4)
  {
  }

  function Number(bytes: seq<byte>): (n: nat)
    requires |bytes| == 4
    ensures n < 0x1_0000_0000
  {
    bytes[0] as int * 0x100_0000 + bytes[1] as int * 0x1_0000 + bytes[2] as int * 0x100 + bytes[3] as int
  }

  // The letters, then the number reduced to the digits there is room for.
  function Assembled(prefix: string, n: nat): string
    requires 4 <= |prefix| <= 6
  {
    prefix + Padded(n % Pow10(12 - |prefix|), 12 - |prefix|)
  }

  function Uid(email: string, wordByte: byte, bytes: seq<byte>): string
    requires |bytes| == 4
  {
    Assembled(Prefix(email, wordByte), Number(bytes))
  }

  method LettersBeforeAt(email: string) returns (letters: string)
    ensures letters == Letters(LocalPart(email))
  {
    var atIndex := 0;
    var i := 0;
    while i < |email|
      invariant 0 <= i <= |email| && atIndex == 0
      invariant FindAt(email, 0) == FindAt(email, i)
    {
      if email[i] == '@' {
        atIndex := i;
        break;
      }
      i := i + 1;
    }
    assert atIndex == FindAt(email, 0);

    letters := "";
    if atIndex > 0 {
      var local := email[..atIndex];
      i := 0;
      while i < |local|
        invariant 0 <= i <= |local|
        invariant letters == Letters(local[..i])
      {
        var c := local[i];
        assert local[..i + 1][..i] == local[..i];
        if ('a' <= c <= 'z') || ('A' <= c <= 'Z') {
          if 'A' <= c <= 'Z' {
            c := c + 32 as char;
          }
          letters := letters + [c];
        }
        i := i + 1;
      }
      assert local[..|local|] == local;
    }
  }

  method GenerateUID(email: string, wordByte: byte, bytes: seq<byte>) returns (uid: string)
    requires |bytes| == 4
    ensures uid == Uid(email, wordByte, bytes)
  {
    hide Letters, LocalPart, Padded, Number, WORD_LIST;
    var letters := LettersBeforeAt(email);
    var prefix;
    if |letters| >= 4 {
      var maxLen := 6;
      if |letters| < maxLen {
        maxLen := |letters|;
      }
      prefix := letters[..maxLen];
    } else {
      WordsAreWords();
      prefix := WORD_LIST[wordByte as int % |WORD_LIST|];
    }

    var digitCount := 12 - |prefix|;
    var randomNum := Number(bytes);
    var mod := 1;
    var i := 0;
    while i < digitCount
      invariant 0 <= i <= digitCount
      invariant mod == Pow10(i)
    {
      mod := mod * 10;
      i := i + 1;
    }
    randomNum := randomNum % mod;
    uid := prefix + Padded(randomNum, digitCount);
  }

  lemma AssembledParts(p: string, n: nat)
    requires 4 <= |p| <= 6
    ensures var uid := Assembled(p, n);
            && |uid| == 12 && uid[..|p|] == p && AllDigits(uid[|p|..])
            && Value(uid[|p|..]) == n % Pow10(12 - |p|)
  {
    var d := Padded(n % Pow10(12 - |p|), 12 - |p|);
    PaddedReadsBack(n % Pow10(12 - |p|), 12 - |p|);
    assert (p + d)[..|p|] == p && (p + d)[|p|..] == d;
  }

  lemma LetterIsNoDigit(uid: string, j: nat, k: nat)
    requires j < k <= |uid| && AllLower(uid[..k])
    ensures !AllDigits(uid[j..])
  {
    assert uid[..k][j] == uid[j..][0];
  }

  lemma AssembledDiffer(p: string, m: nat, q: string, n: nat)
    requires 4 <= |p| <= 6 && 4 <= |q| <= 6 && AllLower(p) && AllLower(q)
    ensures Assembled(p, m) == Assembled(q, n) <==> p == q && m % Pow10(12 - |p|) == n % Pow10(12 - |q|)
  {
    AssembledParts(p, m);
    AssembledParts(q, n);
    var u, v := Assembled(p, m), Assembled(q, n);
    if |p| < |q| { LetterIsNoDigit(v, |p|, |q|); }
    if |q| < |p| { LetterIsNoDigit(u, |q|, |p|); }
  }

  predicate LetterPositions(s: string, at: seq<nat>) {
    && (forall i :: 0 <= i < |at| ==> at[i] < |s| && (('a' <= s[at[i]] <= 'z') || ('A' <= s[at[i]] <= 'Z')))
    && (forall i, j :: 0 <= i < j < |at| ==> at[i] < at[j])
    && (forall p: nat :: p < |s| && (('a' <= s[p] <= 'z') || ('A' <= s[p] <= 'Z')) ==> p in at)
  }

  predicate Lowered(c: char, l: char) {
    ('a' <= c <= 'z' && l == c) || ('A' <= c <= 'Z' && l as int == c as int + 32)
  }

  // The letters of s are those at all positions of ASCII letters, in order, each in lower case.
  lemma {:induction false} LettersAre(s: string) returns (at: seq<nat>)
    ensures LetterPositions(s, at) && |at| == |Letters(s)|
    ensures forall i :: 0 <= i < |at| ==> Lowered(s[at[i]], Letters(s)[i])
    decreases |s|
  {
    hide LetterPositions, Lowered, IsLetter;
    if s == "" {
      at := [];
      NoPositions();
    } else {
      var n := |s| - 1;
      var before := LettersAre(s[..n]);
      at := before + if IsLetter(s[n]) then [n] else [];
      OneMorePosition(s, before);
      OneMoreLetter(s, before);
    }
  }

  lemma NoPositions()
    ensures LetterPositions("", [])
  {
  }

  lemma OneMoreLetter(s: string, before: seq<nat>)
    requires s != "" && |before| == |Letters(s[..|s| - 1])|
    requires forall i :: 0 <= i < |before| ==> before[i] < |s| - 1
    requires forall i :: 0 <= i < |before| ==> Lowered(s[..|s| - 1][before[i]], Letters(s[..|s| - 1])[i])
    ensures var at := before + if IsLetter(s[|s| - 1]) then [|s| - 1] else [];
            && |at| == |Letters(s)|
            && forall i :: 0 <= i < |at| ==> at[i] < |s| && Lowered(s[at[i]], Letters(s)[i])
  {
    var n := |s| - 1;
    var at := before + if IsLetter(s[n]) then [n] else [];
    LoweredLetter(s[n]);
    hide Lowered, IsLetter, LowerChar;
    forall i | 0 <= i < |at| ensures at[i] < |s| && Lowered(s[at[i]], Letters(s)[i]) {
      if i < |before| {
        assert Letters(s)[i] == Letters(s[..n])[i] && s[..n][before[i]] == s[before[i]];
      }
    }
  }

  lemma LoweredLetter(c: char)
    ensures IsLetter(c) ==> Lowered(c, LowerChar(c))
  {
  }

  lemma OneMorePosition(s: string, before: seq<nat>)
    requires s != "" && LetterPositions(s[..|s| - 1], before)
    ensures LetterPositions(s, before + if IsLetter(s[|s| - 1]) then [|s| - 1] else [])
    ensures forall i :: 0 <= i < |before| ==> before[i] < |s| - 1
  {
    var n := |s| - 1;
    var at := before + if IsLetter(s[n]) then [n] else [];
    assert forall i :: 0 <= i < |before| ==> s[..n][before[i]] == s[before[i]];
    forall p: nat | p < |s| && (('a' <= s[p] <= 'z') || ('A' <= s[p] <= 'Z')) ensures p in at {
      if p < n {
        assert s[..n][p] == s[p] && p in before;
      } else {
        assert at[|before|] == n;
      }
    }
  }

  // What an id begins with: if there are at least four ASCII letters before the first '@', the first of
  // them, six at most, in lower case; otherwise the word the byte chooses.
  lemma UidLetters(email: string, wordByte: byte, bytes: seq<byte>) returns (end: nat, at: seq<nat>)
    requires |bytes| == 4
    ensures end <= |email| && LetterPositions(email[..end], at)
    ensures if '@' in email then end < |email| && email[end] == '@' && '@' !in email[..end] else end == 0
    ensures var uid, k := Uid(email, wordByte, bytes), |Prefix(email, wordByte)|;
            && |uid| == 12
            && if |at| >= 4 then
                 && k == (if |at| < 6 then |at| else 6)
                 && forall i :: 0 <= i < k ==> at[i] < end && Lowered(email[at[i]], uid[i])
               else k == |WORD_LIST[wordByte as int % 50]| && uid[..k] == WORD_LIST[wordByte as int % 50]
  {
    hide Assembled, Number, Letters, LetterPositions, Lowered, WORD_LIST;
    LocalPartEnds(email);
    end := FindAt(email, 0);
    at := LettersAre(LocalPart(email));
    assert LocalPart(email) == email[..end];
    AssembledParts(Prefix(email, wordByte), Number(bytes));
    WordsAreWords();
    var p, uid := Prefix(email, wordByte), Uid(email, wordByte, bytes);
    assert uid[..|p|] == p;
    assert forall i :: 0 <= i < |p| ==> uid[i] == uid[..|p|][i];
    PositionsWithin(email[..end], at);
    assert forall i :: 0 <= i < |at| ==> email[..end][at[i]] == email[at[i]];
  }

  lemma PositionsWithin(s: string, at: seq<nat>)
    requires LetterPositions(s, at)
    ensures forall i :: 0 <= i < |at| ==> at[i] < |s|
  {
  }

  // The number's bytes, the last the least significant.
  lemma NumberBytes(bytes: seq<byte>)
    requires |bytes| == 4
    ensures var n := Number(bytes);
            && n % 0x100 == bytes[3] as int && n / 0x100 % 0x100 == bytes[2] as int
            && n / 0x100 / 0x100 % 0x100 == bytes[1] as int && n / 0x100 / 0x100 / 0x100 == bytes[0] as int
  {
    var b0, b1, b2, b3 := bytes[0] as int, bytes[1] as int, bytes[2] as int, bytes[3] as int;
    LastByte((b0 * 0x100 + b1) * 0x100 + b2, b3);
    LastByte(b0 * 0x100 + b1, b2);
    LastByte(b0, b1);
  }

  lemma LastByte(n: nat, b: int)
    requires 0 <= b < 0x100
    ensures (n * 0x100 + b) / 0x100 == n && (n * 0x100 + b) % 0x100 == b
  {
  }

  // Every id has twelve characters: four to six lower-case letters, then digits that read back as the
  // random number, reduced to as many digits as there is room for.
  lemma UidShape(email: string, wordByte: byte, bytes: seq<byte>) returns (k: nat)
    requires |bytes| == 4
    ensures var uid := Uid(email, wordByte, bytes);
            && |uid| == 12 && 4 <= k <= 6 && uid[..k] == Prefix(email, wordByte)
            && AllLower(uid[..k]) && AllDigits(uid[k..])
            && Value(uid[k..]) == Number(bytes) % Pow10(12 - k)
  {
    k := |Prefix(email, wordByte)|;
    AssembledParts(Prefix(email, wordByte), Number(bytes));
  }

  // Two ids are equal exactly if their letters and their reduced numbers are.
  lemma UidsDiffer(e1: string, w1: byte, b1: seq<byte>, e2: string, w2: byte, b2: seq<byte>)
    requires |b1| == |b2| == 4
    ensures Uid(e1, w1, b1) == Uid(e2, w2, b2) <==>
            && Prefix(e1, w1) == Prefix(e2, w2)
            && Number(b1) % Pow10(12 - |Prefix(e1, w1)|) == Number(b2) % Pow10(12 - |Prefix(e2, w2)|)
  {
    hide Prefix, Number, Assembled;
    AssembledDiffer(Prefix(e1, w1), Number(b1), Prefix(e2, w2), Number(b2));
  }

  // Ids need no cleaning, so different generated users never share a database or an SQL user.
  lemma GeneratedUsersApart(e1: string, w1: byte, b1: seq<byte>, e2: string, w2: byte, b2: seq<byte>)
    requires |b1| == |b2| == 4
    ensures var u, v := Uid(e1, w1, b1), Uid(e2, w2, b2);
            && Clean(u) && Sanitize(u) == u
            && (DatabaseName(u) == DatabaseName(v) <==> u == v)
            && (Username(u) == Username(v) <==> u == v)
  {
    UidClean(e1, w1, b1);
    UidClean(e2, w2, b2);
    SanitizeFixesExactlyClean(Uid(e1, w1, b1));
    DatabaseNameInjective(Uid(e1, w1, b1), Uid(e2, w2, b2));
  }

  lemma UidClean(email: string, wordByte: byte, bytes: seq<byte>)
    requires |bytes| == 4
    ensures Clean(Uid(email, wordByte, bytes))
  {
    var uid := Uid(email, wordByte, bytes);
    var k := UidShape(email, wordByte, bytes);
    forall i | 0 <= i < |uid| ensures uid[i] != '-' && uid[i] != '.' && !IsUpper(uid[i]) {
      if i < k {
        assert uid[..k][i] == uid[i];
      } else {
        assert uid[k..][i - k] == uid[i];
      }
    }
  }
}
