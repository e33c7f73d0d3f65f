/**
 * The two text routines the planning analyzer applies to its input files
 * before handing them to the parser: a test for bytes outside ASCII, and
 * the rewrite of the German letters ö, ä, ü and ß into the ASCII digraphs
 * oe, ae, ue and ss. File reading and writing stay outside the model: the
 * byte test takes the file's bytes, the rewrite the decoded text.
 */
module PddlEncoding {

  newtype byte = x: int | 0 <= x < 256

  // ---------------------------------------------------------------------
  // Non-ASCII byte test

  /** The (position, byte) pairs of every byte above 127, in file order. */
  function NonAsciiBytes(data: seq<byte>): (r: seq<(nat, byte)>)
    ensures forall k :: 0 <= k < |r| ==> r[k].0 < |data| && data[r[k].0] == r[k].1 && r[k].1 > 127
    ensures forall k, l :: 0 <= k < l < |r| ==> r[k].0 < r[l].0
    ensures forall i :: 0 <= i < |data| && data[i] > 127 ==> (i, data[i]) in r
  {
    if |data| == 0 then []
    else
      var n := |data| - 1;
      var before := NonAsciiBytes(data[..n]);
      var r := before + (if data[n] > 127 then [(n, data[n])] else []);
      assert forall i :: 0 <= i < n ==> data[..n][i] == data[i];
      r
  }

  /** True exactly when the data holds no byte above 127. */
  function CheckNonAsciiChars(data: seq<byte>): (ok: bool)
    ensures ok <==> forall i :: 0 <= i < |data| ==> data[i] <= 127
  {
    var found := NonAsciiBytes(data);
    assert |found| > 0 ==> data[found[0].0] > 127;
    assert (forall i :: 0 <= i < |data| ==> data[i] <= 127) ==> |found| == 0;
    |found| == 0
  }

  // ---------------------------------------------------------------------
  // Umlaut rewrite

  const SmallOUmlaut: char := '\U{00F6}'
  const SmallAUmlaut: char := '\U{00E4}'
  const SmallUUmlaut: char := '\U{00FC}'
  const SharpS: char := '\U{00DF}'

  /** The four characters the rewrite removes (lower case only). */
  predicate IsUmlaut(ch: char) {
    ch == SmallOUmlaut || ch == SmallAUmlaut || ch == SmallUUmlaut || ch == SharpS
  }

  predicate UmlautFree(s: string) {
    forall i :: 0 <= i < |s| ==> !IsUmlaut(s[i])
  }

  /** Replaces every occurrence of the character `c` by the string `repl`. */
  function ReplaceChar(s: string, c: char, repl: string): (r: string)
    ensures c !in s ==> r == s
    ensures forall d :: d !in repl && (d == c || d !in s) ==> d !in r
  {
    if |s| == 0 then []
    else (if s[0] == c then repl else [s[0]]) + ReplaceChar(s[1..], c, repl)
  }

  /** The rewrite of the file content: ö, ä, ü and ß, in this order, each
      replaced by its two-letter ASCII spelling. Its result contains none
      of the four, and text without them is left as it is. */
  function ReplaceUmlauts(content: string): (r: string)
    ensures UmlautFree(r)
    ensures UmlautFree(content) ==> r == content
  {
    var r := ReplaceChar(ReplaceChar(ReplaceChar(ReplaceChar(content, SmallOUmlaut, "oe"), SmallAUmlaut, "ae"), SmallUUmlaut, "ue"), SharpS, "ss");
    assert forall i :: 0 <= i < |r| ==> r[i] in r;
    r
  }

  /** The spelling one character is rewritten to. */
  function Spelling(ch: char): string {
    if ch == SmallOUmlaut then "oe"
    else if ch == SmallAUmlaut then "ae"
    else if ch == SmallUUmlaut then "ue"
    else if ch == SharpS then "ss"
    else [ch]
  }

  /** A single left-to-right pass rewriting each character by its spelling. */
  function Transliterate(s: string): string {
    if |s| == 0 then [] else Spelling(s[0]) + Transliterate(s[1..])
  }

  /** Number of characters the rewrite replaces. */
  function UmlautCount(s: string): nat {
    if |s| == 0 then 0 else (if IsUmlaut(s[0]) then 1 else 0) + UmlautCount(s[1..])
  }

  lemma {:induction false} ReplaceCharAppend(a: string, b: string, c: char, repl: string)
    ensures ReplaceChar(a + b, c, repl) == ReplaceChar(a, c, repl) + ReplaceChar(b, c, repl)
  {
    if |a| == 0 {
      assert a + b == b;
    } else {
      assert (a + b)[1..] == a[1..] + b;
      ReplaceCharAppend(a[1..], b, c, repl);
    }
  }

  /** The rewrite works character by character: it distributes over concatenation. */
  lemma ReplaceUmlautsAppend(a: string, b: string)
    ensures ReplaceUmlauts(a + b) == ReplaceUmlauts(a) + ReplaceUmlauts(b)
  {
    var a1, b1 := ReplaceChar(a, SmallOUmlaut, "oe"), ReplaceChar(b, SmallOUmlaut, "oe");
    ReplaceCharAppend(a, b, SmallOUmlaut, "oe");
    var a2, b2 := ReplaceChar(a1, SmallAUmlaut, "ae"), ReplaceChar(b1, SmallAUmlaut, "ae");
    ReplaceCharAppend(a1, b1, SmallAUmlaut, "ae");
    var a3, b3 := ReplaceChar(a2, SmallUUmlaut, "ue"), ReplaceChar(b2, SmallUUmlaut, "ue");
    ReplaceCharAppend(a2, b2, SmallUUmlaut, "ue");
    ReplaceCharAppend(a3, b3, SharpS, "ss");
  }

  /** The chain of four replacements equals the one-pass rewrite: no
      replacement produces a character a later one would rewrite. */
  lemma {:induction false} ReplaceUmlautsIsTransliteration(s: string)
    ensures ReplaceUmlauts(s) == Transliterate(s)
  {
    if |s| > 0 {
      assert s == [s[0]] + s[1..];
      ReplaceUmlautsAppend([s[0]], s[1..]);
      ReplaceUmlautsIsTransliteration(s[1..]);
      ReplaceUmlautsSingle(s[0]);
    }
  }

  lemma ReplaceCharSingle(ch: char, c: char, repl: string)
    ensures ReplaceChar([ch], c, repl) == if ch == c then repl else [ch]
  {
    assert [ch][1..] == [];
  }

  /** On one character, the chain of four replacements gives its spelling. */
  lemma ReplaceUmlautsSingle(ch: char)
    ensures ReplaceUmlauts([ch]) == Spelling(ch)
  {
    var s1 := ReplaceChar([ch], SmallOUmlaut, "oe");
    ReplaceCharSingle(ch, SmallOUmlaut, "oe");
    var s2 := ReplaceChar(s1, SmallAUmlaut, "ae");
    if ch == SmallAUmlaut {
      ReplaceCharSingle(ch, SmallAUmlaut, "ae");
    }
    var s3 := ReplaceChar(s2, SmallUUmlaut, "ue");
    if ch == SmallUUmlaut {
      ReplaceCharSingle(ch, SmallUUmlaut, "ue");
    }
    if ch == SharpS {
      ReplaceCharSingle(ch, SharpS, "ss");
    }
  }

  /** Rewriting twice is the same as rewriting once. */
  lemma ReplaceUmlautsIdempotent(s: string)
    ensures ReplaceUmlauts(ReplaceUmlauts(s)) == ReplaceUmlauts(s)
  {
  }

  /** Each replaced character grows the text by one. */
  lemma {:induction false} ReplaceUmlautsLength(s: string)
    ensures |ReplaceUmlauts(s)| == |s| + UmlautCount(s)
  {
    TransliterateLength(s);
    ReplaceUmlautsIsTransliteration(s);
  }

  lemma {:induction false} TransliterateLength(s: string)
    ensures |Transliterate(s)| == |s| + UmlautCount(s)
  {
    if |s| > 0 {
      TransliterateLength(s[1..]);
    }
  }

  /** Every other character is kept, in its place between the rewrites of
      what precedes and what follows it. */
  lemma KeepsOtherCharacters(a: string, ch: char, b: string)
    requires !IsUmlaut(ch)
    ensures ReplaceUmlauts(a + [ch] + b) == ReplaceUmlauts(a) + [ch] + ReplaceUmlauts(b)
  {
    ReplaceUmlautsAppend(a + [ch], b);
    ReplaceUmlautsAppend(a, [ch]);
  }

  /** The capital letters Ä, Ö and Ü are not rewritten. */
  lemma CapitalUmlautsKept(a: string, b: string)
    ensures ReplaceUmlauts(a + "\U{00C4}\U{00D6}\U{00DC}" + b)
         == ReplaceUmlauts(a) + "\U{00C4}\U{00D6}\U{00DC}" + ReplaceUmlauts(b)
  {
    var capitals := "\U{00C4}\U{00D6}\U{00DC}";
    assert UmlautFree(capitals);
    ReplaceUmlautsAppend(a + capitals, b);
    ReplaceUmlautsAppend(a, capitals);
  }
}
