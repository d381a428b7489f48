/** Redemption codes: `makeCode`, which draws a prefixed code from an
    unambiguous alphabet, and the guard of the copy button, which refuses the
    placeholders the message box shows when there is no code. */
module Codes {
  import opened JsMath
  import opened Text

  datatype Option<T> = None | Some(value: T)

  const CodePrefix: string := "ACTU-"
  /** Upper-case letters and digits without the look-alikes I, O, 0 and 1. */
  const Alphabet: string := "ABCDEFGHJKLMNPQRSTUVWXYZ23456789"
  /** Shown instead of a code when the spin grants the second chance. */
  const NoCode: string := "—"
  const MinCodeChars: int := 4
  const MaxCodeChars: int := 6

  /** Characters that cannot be mistaken for one another. */
  predicate Unambiguous(c: char) {
    ('A' <= c <= 'Z' && c != 'I' && c != 'O') || ('2' <= c <= '9')
  }

  /** The alphabet holds exactly the unambiguous characters, 32 of them. */
  lemma AlphabetIsUnambiguous()
    ensures |Alphabet| == 32
    ensures forall c :: c in Alphabet <==> Unambiguous(c)
  {
    forall c | Unambiguous(c) ensures c in Alphabet {
      if 'A' <= c <= 'H' {
        assert Alphabet[c as int - 'A' as int] == c;
      } else if 'J' <= c <= 'N' {
        assert Alphabet[c as int - 'A' as int - 1] == c;
      } else if 'P' <= c <= 'Z' {
        assert Alphabet[c as int - 'A' as int - 2] == c;
      } else {
        assert Alphabet[c as int - '2' as int + 24] == c;
      }
    }
  }

  predicate IsDraw(u: real) {
    0.0 <= u < 1.0
  }

  /** The values of `Math.random()` one call of `makeCode` consumes: one for the
      length, then one per character. */
  predicate CodeDraws(uLen: real, uChars: seq<real>) {
    IsDraw(uLen) && |uChars| >= RandInt(MinCodeChars, MaxCodeChars, uLen) &&
    forall i :: 0 <= i < |uChars| ==> IsDraw(uChars[i])
  }

  /** `chars[Math.floor(Math.random() * chars.length)]`. */
  function CharFor(u: real): (c: char)
    requires IsDraw(u)
    ensures c in Alphabet
  {
    Alphabet[(u * |Alphabet| as real).Floor]
  }

  /** The code `makeCode` returns for the given draws. */
  function CodeFor(uLen: real, uChars: seq<real>): (code: string)
    requires CodeDraws(uLen, uChars)
    ensures WellFormedCode(code)
    ensures |code| == |CodePrefix| + RandInt(MinCodeChars, MaxCodeChars, uLen)
  {
    var n := RandInt(MinCodeChars, MaxCodeChars, uLen);
    CodePrefix + seq(n, i requires 0 <= i < n => CharFor(uChars[i]))
  }

  /** A code as the message box may show it: the prefix followed by four to six
      characters of the alphabet. */
  predicate WellFormedCode(code: string) {
    |CodePrefix| + MinCodeChars <= |code| <= |CodePrefix| + MaxCodeChars &&
    code[..|CodePrefix|] == CodePrefix &&
    forall i :: |CodePrefix| <= i < |code| ==> code[i] in Alphabet
  }

  /** `makeCode`: builds the characters one by one in a loop, then prefixes them. */
  method MakeCode(uLen: real, uChars: seq<real>) returns (code: string)
    requires CodeDraws(uLen, uChars)
    ensures code == CodeFor(uLen, uChars)
    ensures WellFormedCode(code) && 9 <= |code| <= 11
  {
    var len := RandInt(MinCodeChars, MaxCodeChars, uLen);
    var out := "";
    var i := 0;
    while i < len
      invariant 0 <= i <= len
      invariant |out| == i
      invariant forall k :: 0 <= k < i ==> out[k] == CharFor(uChars[k])
    {
      out := out + [Alphabet[(uChars[i] * |Alphabet| as real).Floor]];
      i := i + 1;
    }
    code := CodePrefix + out;
    assert out == seq(len, k requires 0 <= k < len => CharFor(uChars[k]));
  }

  /** `(code || "ACTU-")`: the message box shows the bare prefix for an empty code. */
  function ShownCode(code: string): (shown: string)
    ensures shown != ""
    ensures code != "" ==> shown == code
  {
    if code == "" then CodePrefix else code
  }

  /** The copy button's guard: the trimmed code text is copied unless it is empty,
      the bare prefix or the no-code placeholder. */
  function CopyText(shown: string): (copied: Option<string>)
    ensures copied.Some? ==> copied.value != "" && copied.value != CodePrefix && copied.value != NoCode
    ensures copied.Some? ==> copied.value == Trim(shown)
  {
    var txt := Trim(shown);
    if txt == "" || txt == CodePrefix || txt == NoCode then None else Some(txt)
  }

  /** The placeholders never reach the clipboard: nothing but whitespace, the
      bare prefix and the no-code marker, with or without surrounding
      whitespace, are all refused. */
  lemma PlaceholdersAreNotCopied(pad1: string, pad2: string)
    requires AllWhitespace(pad1) && AllWhitespace(pad2)
    ensures CopyText(pad1 + pad2) == None
    ensures CopyText(pad1 + CodePrefix + pad2) == None
    ensures CopyText(pad1 + NoCode + pad2) == None
  {
    var all := pad1 + pad2;
    assert AllWhitespace(all) by {
      forall i | 0 <= i < |all| ensures IsWhitespace(all[i]) {
        if i < |pad1| { assert all[i] == pad1[i]; } else { assert all[i] == pad2[i - |pad1|]; }
      }
    }
    TrimEmptyIff(all);
    TrimAround(pad1, CodePrefix, pad2);
    TrimAround(pad1, NoCode, pad2);
  }

  /** The bare prefix that a reset message box shows is not copied. */
  lemma BarePrefixNotCopied()
    ensures CopyText(CodePrefix) == None
  {
    assert !IsWhitespace(CodePrefix[0]) && !IsWhitespace(CodePrefix[|CodePrefix| - 1]);
    TrimUnchanged(CodePrefix);
  }

  /** Trimming removes whitespace padding around a word that neither starts nor
      ends with whitespace. */
  lemma TrimAround(pad1: string, word: string, pad2: string)
    requires AllWhitespace(pad1) && AllWhitespace(pad2)
    requires word != [] && !IsWhitespace(word[0]) && !IsWhitespace(word[|word| - 1])
    ensures Trim(pad1 + word + pad2) == word
  {
    TrimStartPadded(pad1, word + pad2);
    assert pad1 + word + pad2 == pad1 + (word + pad2);
    TrimEndPadded(word, pad2);
  }

  lemma {:induction false} TrimStartPadded(pad: string, s: string)
    requires AllWhitespace(pad)
    requires s != [] && !IsWhitespace(s[0])
    ensures TrimStart(pad + s) == s
  {
    if pad != [] {
      assert (pad + s)[1..] == pad[1..] + s;
      TrimStartPadded(pad[1..], s);
    }
  }

  lemma {:induction false} TrimEndPadded(s: string, pad: string)
    requires AllWhitespace(pad)
    requires s != [] && !IsWhitespace(s[|s| - 1])
    ensures TrimEnd(s + pad) == s
  {
    if pad != [] {
      assert (s + pad)[..|s + pad| - 1] == s + pad[..|pad| - 1];
      TrimEndPadded(s, pad[..|pad| - 1]);
    }
  }

  /** Every code `makeCode` can return is copied by the copy button, exactly as
      shown. */
  lemma GeneratedCodesAreCopied(code: string)
    requires WellFormedCode(code)
    ensures ShownCode(code) == code
    ensures CopyText(code) == Some(code)
  {
    AlphabetIsUnambiguous();
    assert code[0] == CodePrefix[0];
    assert Unambiguous(code[|code| - 1]);
    TrimUnchanged(code);
    assert code != CodePrefix;
    assert code != NoCode by { assert |NoCode| == 1; }
  }
}
