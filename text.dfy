/** Text normalisation and tokenisation of the recommendation engine
    (utils/recommendations.js, `tokenize`).

    `tokenize` lower-cases the text, turns every character that is not a
    lower-case ASCII letter, an ASCII digit or whitespace into a space, splits
    at whitespace and keeps the pieces longer than two characters. */
module Text {

  /** The characters the class `[a-z0-9]` accepts. */
  predicate IsLowerAlnum(c: char) {
    ('a' <= c <= 'z') || ('0' <= c <= '9')
  }

  /** The class `\s` of ECMAScript regular expressions: WhiteSpace
      (tab, vertical tab, form feed, space, no-break space, zero width no-break
      space and the Unicode space separators) and LineTerminator. */
  predicate IsSpace(c: char) {
    var n := c as int;
    n == 0x09 || n == 0x0A || n == 0x0B || n == 0x0C || n == 0x0D || n == 0x20 ||
    n == 0xA0 || n == 0x1680 || (0x2000 <= n <= 0x200A) || n == 0x2028 || n == 0x2029 ||
    n == 0x202F || n == 0x205F || n == 0x3000 || n == 0xFEFF
  }

  /** `toLowerCase` on one character, for the ASCII letters. */
  function Lower(c: char): (l: char)
    ensures 'A' <= c <= 'Z' ==> 'a' <= l <= 'z' && l as int == c as int + 32
    ensures !('A' <= c <= 'Z') ==> l == c
  {
    if 'A' <= c <= 'Z' then (c as int + 32) as char else c
  }

  /** One character after lower-casing, with every character other than a
      letter, a digit or whitespace replaced by a space. */
  function NormalizeChar(c: char): char {
    var l := Lower(c);
    if IsLowerAlnum(l) || IsSpace(l) then l else ' '
  }

  /** The whole text after lower-casing and replacing foreign characters. */
  function Normalize(s: string): (n: string)
    ensures |n| == |s|
    ensures forall i :: 0 <= i < |s| ==> IsLowerAlnum(n[i]) || IsSpace(n[i])
  {
    seq(|s|, i requires 0 <= i < |s| => NormalizeChar(s[i]))
  }

  /** The pieces between whitespace characters, as `split` cuts them: every
      whitespace character ends one piece and starts the next. */
  function Fields(s: string): (ws: seq<string>)
    ensures |ws| >= 1
  {
    if s == [] then [""]
    else
      var rest := Fields(s[1..]);
      if IsSpace(s[0]) then [""] + rest else [[s[0]] + rest[0]] + rest[1..]
  }

  /** The length `filter`: the words longer than two characters. */
  function LongWords(ws: seq<string>): (r: seq<string>)
    ensures |r| <= |ws|
    ensures forall i :: 0 <= i < |r| ==> |r[i]| > 2
  {
    if ws == [] then []
    else if |ws[0]| > 2 then [ws[0]] + LongWords(ws[1..])
    else LongWords(ws[1..])
  }

  /** `tokenize`: the words of the normalized text longer than two
      characters, in order. */
  function Tokenize(text: string): (r: seq<string>)
    ensures forall i :: 0 <= i < |r| ==> |r[i]| > 2
  {
    LongWords(Fields(Normalize(text)))
  }

  // ---------------------------------------------------------------------
  // Fields: pieces are whitespace-free slices, and joining them restores the text.

  /** The pieces joined back with a single space in between. */
  function JoinWithSpace(ws: seq<string>): string {
    if ws == [] then ""
    else if |ws| == 1 then ws[0]
    else ws[0] + " " + JoinWithSpace(ws[1..])
  }

  /** The text with every whitespace character replaced by a plain space. */
  function BlankSpaces(s: string): (b: string)
    ensures |b| == |s|
  {
    seq(|s|, i requires 0 <= i < |s| => if IsSpace(s[i]) then ' ' else s[i])
  }

  predicate NoSpace(w: string) {
    forall i :: 0 <= i < |w| ==> !IsSpace(w[i])
  }

  predicate OccursAt(w: string, s: string, at: int) {
    0 <= at && at + |w| <= |s| && s[at..at + |w|] == w
  }

  lemma OccursShift(w: string, s: string, at: int)
    requires s != [] && OccursAt(w, s[1..], at)
    ensures OccursAt(w, s, at + 1)
  {
    assert s[at + 1..at + 1 + |w|] == s[1..][at..at + |w|];
  }

  /** The first piece is a prefix of the text. */
  lemma {:induction false} FirstFieldIsPrefix(s: string)
    ensures Fields(s)[0] <= s
  {
    if s != [] {
      FirstFieldIsPrefix(s[1..]);
    }
  }

  /** Piece k is free of whitespace and occurs in the text at position `at`. */
  lemma {:induction false} FieldPosition(s: string, k: nat) returns (at: nat)
    requires k < |Fields(s)|
    ensures NoSpace(Fields(s)[k])
    ensures OccursAt(Fields(s)[k], s, at)
  {
    if s == [] {
      at := 0;
    } else {
      var rest := Fields(s[1..]);
      var w := Fields(s)[k];
      if IsSpace(s[0]) && k == 0 {
        at := 0;
      } else if IsSpace(s[0]) {
        assert w == rest[k - 1];
        var at' := FieldPosition(s[1..], k - 1);
        OccursShift(w, s, at');
        at := at' + 1;
      } else if k == 0 {
        var at' := FieldPosition(s[1..], 0);
        FirstFieldIsPrefix(s[1..]);
        assert w == [s[0]] + rest[0];
        assert w == s[..|w|];
        at := 0;
      } else {
        assert w == rest[k];
        var at' := FieldPosition(s[1..], k);
        OccursShift(w, s, at');
        at := at' + 1;
      }
    }
  }

  /** Joining the pieces with single spaces gives back the text, with its
      whitespace characters written as plain spaces: no character is lost,
      reordered or duplicated by the split. */
  lemma {:induction false} FieldsJoin(s: string)
    ensures JoinWithSpace(Fields(s)) == BlankSpaces(s)
  {
    if s != [] {
      var rest := Fields(s[1..]);
      FieldsJoin(s[1..]);
      assert BlankSpaces(s) == BlankSpaces([s[0]]) + BlankSpaces(s[1..]);
      if IsSpace(s[0]) {
        assert Fields(s) == [""] + rest;
        assert ([""] + rest)[1..] == rest;
        assert BlankSpaces([s[0]]) == " ";
      } else {
        var ws := [[s[0]] + rest[0]] + rest[1..];
        assert Fields(s) == ws;
        assert BlankSpaces([s[0]]) == [s[0]];
        if |rest| == 1 {
          assert JoinWithSpace(ws) == [s[0]] + rest[0];
        } else {
          assert ws[1..] == rest[1..];
          assert JoinWithSpace(rest) == rest[0] + " " + JoinWithSpace(rest[1..]);
          assert JoinWithSpace(ws) == [s[0]] + JoinWithSpace(rest);
        }
      }
    }
  }

  /** One step of the split: a leading character either closes an empty
      piece or becomes the first character of the first piece. */
  function SplitStep(c: char, rest: seq<string>): seq<string>
    requires rest != []
  {
    if IsSpace(c) then [""] + rest else [[c] + rest[0]] + rest[1..]
  }

  lemma FieldsCons(c: char, r: string)
    ensures Fields([c] + r) == SplitStep(c, Fields(r))
  {
    assert ([c] + r)[0] == c && ([c] + r)[1..] == r;
  }

  /** A step only touches the first piece. */
  lemma SplitStepAppend(c: char, x: seq<string>, y: seq<string>)
    requires x != []
    ensures SplitStep(c, x + y) == SplitStep(c, x) + y
  {
    assert (x + y)[0] == x[0] && (x + y)[1..] == x[1..] + y;
  }

  /** A space splits the text into the pieces of either side. */
  lemma {:induction false} FieldsAroundSpace(a: string, b: string)
    ensures Fields(a + " " + b) == Fields(a) + Fields(b)
  {
    if a == [] {
      assert a + " " + b == [' '] + b;
      FieldsCons(' ', b);
    } else {
      var c, r := a[0], a[1..];
      calc {
        Fields(a + " " + b);
        { assert a + " " + b == [c] + (r + " " + b); }
        Fields([c] + (r + " " + b));
        { FieldsCons(c, r + " " + b); }
        SplitStep(c, Fields(r + " " + b));
        { FieldsAroundSpace(r, b); }
        SplitStep(c, Fields(r) + Fields(b));
        { SplitStepAppend(c, Fields(r), Fields(b)); }
        SplitStep(c, Fields(r)) + Fields(b);
        { FieldsCons(c, r); assert [c] + r == a; }
        Fields(a) + Fields(b);
      }
    }
  }

  lemma {:induction false} LongWordsAppend(x: seq<string>, y: seq<string>)
    ensures LongWords(x + y) == LongWords(x) + LongWords(y)
  {
    if x != [] {
      assert (x + y)[0] == x[0];
      assert (x + y)[1..] == x[1..] + y;
      LongWordsAppend(x[1..], y);
      if |x[0]| > 2 {
        assert LongWords(x + y) == [x[0]] + LongWords(x[1..] + y);
      } else {
        assert LongWords(x + y) == LongWords(x[1..] + y);
      }
    } else {
      assert x + y == y;
    }
  }

  lemma {:induction false} LongWordsMembers(ws: seq<string>, w: string)
    requires w in LongWords(ws)
    ensures w in ws && |w| > 2
  {
    if ws != [] && !(|ws[0]| > 2 && w == ws[0]) {
      LongWordsMembers(ws[1..], w);
    }
  }

  lemma {:induction false} LongWordsKeeps(ws: seq<string>, w: string)
    requires w in ws && |w| > 2
    ensures w in LongWords(ws)
  {
    if w != ws[0] {
      LongWordsKeeps(ws[1..], w);
    }
  }

  // ---------------------------------------------------------------------
  // Properties of Tokenize.

  /** Every token is longer than two characters and consists of lower-case
      ASCII letters and digits only, and it occurs as one contiguous slice of
      the normalised text. */
  lemma TokenShape(text: string, w: string)
    requires w in Tokenize(text)
    ensures |w| > 2
    ensures forall i :: 0 <= i < |w| ==> IsLowerAlnum(w[i])
    ensures exists at :: OccursAt(w, Normalize(text), at)
  {
    var n := Normalize(text);
    LongWordsMembers(Fields(n), w);
    var k :| 0 <= k < |Fields(n)| && Fields(n)[k] == w;
    var at := FieldPosition(n, k);
    forall i | 0 <= i < |w|
      ensures IsLowerAlnum(w[i])
    {
      assert w[i] == n[at + i];
      assert !IsSpace(w[i]);
    }
  }

  /** Three consecutive letters or digits at position i of a normalised text. */
  predicate RunAt(s: string, i: int) {
    0 <= i && i + 3 <= |s| && IsLowerAlnum(s[i]) && IsLowerAlnum(s[i + 1]) && IsLowerAlnum(s[i + 2])
  }

  /** Non-space characters at the front all belong to the first piece. */
  lemma {:induction false} FirstFieldCovers(s: string, k: nat)
    requires k <= |s|
    requires forall i :: 0 <= i < k ==> !IsSpace(s[i])
    ensures |Fields(s)[0]| >= k
  {
    if k > 0 {
      FirstFieldCovers(s[1..], k - 1);
    }
  }

  /** Three whitespace-free characters in a row lie inside one long piece. */
  lemma {:induction false} RunInsideField(s: string, i: nat)
    requires i + 3 <= |s|
    requires !IsSpace(s[i]) && !IsSpace(s[i + 1]) && !IsSpace(s[i + 2])
    ensures exists w :: w in Fields(s) && |w| > 2
  {
    var rest := Fields(s[1..]);
    if i == 0 {
      FirstFieldCovers(s[1..], 2);
      assert Fields(s)[0] == [s[0]] + rest[0];
    } else {
      RunInsideField(s[1..], i - 1);
      var w :| w in rest && |w| > 2;
      if IsSpace(s[0]) {
        assert w in Fields(s);
      } else if w == rest[0] {
        assert |Fields(s)[0]| > 2;
      } else {
        var j :| 1 <= j < |rest| && rest[j] == w;
        assert Fields(s) == [[s[0]] + rest[0]] + rest[1..];
        assert Fields(s)[j] == rest[1..][j - 1];
      }
    }
  }

  /** Tokenize yields nothing exactly when the normalised text has no run of
      three letters or digits, for instance on the empty text. */
  lemma TokenizeEmpty(text: string)
    ensures Tokenize(text) == [] <==> !exists i :: RunAt(Normalize(text), i)
  {
    var n := Normalize(text);
    if Tokenize(text) != [] {
      var w := Tokenize(text)[0];
      TokenShape(text, w);
      var at :| OccursAt(w, n, at);
      assert n[at..at + |w|] == w;
      assert RunAt(n, at);
    }
    if i :| RunAt(n, i) {
      RunInsideField(n, i);
      var w :| w in Fields(n) && |w| > 2;
      LongWordsKeeps(Fields(n), w);
    }
  }

  /** Tokenising two texts joined by a space gives the tokens of the first
      followed by the tokens of the second. */
  lemma TokenizeAroundSpace(a: string, b: string)
    ensures Tokenize(a + " " + b) == Tokenize(a) + Tokenize(b)
  {
    assert Normalize(a + " " + b) == Normalize(a) + " " + Normalize(b);
    FieldsAroundSpace(Normalize(a), Normalize(b));
    LongWordsAppend(Fields(Normalize(a)), Fields(Normalize(b)));
  }

  /** A whitespace-free text is a single piece. */
  lemma {:induction false} FieldsOfWord(w: string)
    requires NoSpace(w)
    ensures Fields(w) == [w]
  {
    if w != [] {
      FieldsOfWord(w[1..]);
      assert [w[0]] + w[1..] == w;
    }
  }

  lemma NormalizeExample()
    ensures Normalize("Sci-Fi 2049!!") == "sci fi 2049  "
  {
    var n := Normalize("Sci-Fi 2049!!");
    assert n[0] == 's' && n[1] == 'c' && n[2] == 'i' && n[3] == ' ';
    assert n[4] == 'f' && n[5] == 'i' && n[6] == ' ';
    assert n[7] == '2' && n[8] == '0' && n[9] == '4' && n[10] == '9';
    assert n[11] == ' ' && n[12] == ' ';
  }

  /** Splitting whitespace-free words joined by single spaces gives the words
      back. */
  lemma {:induction false} FieldsOfJoin(ws: seq<string>)
    requires ws != []
    requires forall i :: 0 <= i < |ws| ==> NoSpace(ws[i])
    ensures Fields(JoinWithSpace(ws)) == ws
    decreases |ws|
  {
    FieldsOfWord(ws[0]);
    if |ws| > 1 {
      FieldsOfJoin(ws[1..]);
      FieldsAroundSpace(ws[0], JoinWithSpace(ws[1..]));
      assert ws == [ws[0]] + ws[1..];
    }
  }

  /** A text whose normalised form is lower-case words joined by single
      spaces tokenizes to the words of that list longer than two characters. */
  lemma TokenizeText(text: string, lower: string, ws: seq<string>, kept: seq<string>)
    requires Normalize(text) == lower
    requires ws != [] && forall i, j :: 0 <= i < |ws| && 0 <= j < |ws[i]| ==> IsLowerAlnum(ws[i][j])
    requires JoinWithSpace(ws) == lower
    requires LongWords(ws) == kept
    ensures Tokenize(text) == kept
  {
    forall i | 0 <= i < |ws|
      ensures NoSpace(ws[i])
    {
    }
    FieldsOfJoin(ws);
  }

  /** The example "Sci-Fi 2049!!": the hyphen and the exclamation marks become
      spaces, and the two-letter piece "fi" is dropped. */
  lemma TokenizeExample(text: string)
    requires text == "Sci-Fi 2049!!"
    ensures Tokenize(text) == ["sci", "2049"]
  {
    NormalizeExample();
    var words := ["sci", "fi", "2049", "", ""];
    SplitExample(words);
    LongWordsExample(words);
  }

  /** The normalised example text splits into its words and the empty pieces
      left by the trailing spaces. */
  lemma SplitExample(words: seq<string>)
    requires words == ["sci", "fi", "2049", "", ""]
    ensures Fields("sci fi 2049  ") == words
  {
    assert JoinWithSpace(words[3..]) == " ";
    assert JoinWithSpace(words[2..]) == "2049  ";
    assert JoinWithSpace(words[1..]) == "fi 2049  ";
    assert JoinWithSpace(words) == "sci fi 2049  ";
    FieldsOfJoin(words);
  }

  /** Of the example's pieces only those longer than two characters are kept. */
  lemma LongWordsExample(ws: seq<string>)
    requires ws == ["sci", "fi", "2049", "", ""]
    ensures LongWords(ws) == ["sci", "2049"]
  {
    assert LongWords(ws[4..]) == [];
    assert LongWords(ws[3..]) == [];
    assert LongWords(ws[2..]) == ["2049"];
    assert LongWords(ws[1..]) == ["2049"];
  }
}
