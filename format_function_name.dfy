/**
 * The method label the tracking server puts on each notification
 * (server/src/utilities/formatFunctionName.ts): "Transfer" for the empty
 * selector, otherwise a label derived from the decoded function name.
 */
module FunctionNames {
  import opened JsStrings
  import Scanners

  predicate IsCapital(c: char) {
    'A' <= c <= 'Z'
  }

  /** `toUpperCase` of a single character, for ASCII letters. */
  function ToUpper(c: char): (u: char)
    ensures 'a' <= c <= 'z' ==> IsCapital(u) && u as int == c as int - 32
    ensures !('a' <= c <= 'z') ==> u == c
  {
    if 'a' <= c <= 'z' then (c as int - 'a' as int + 'A' as int) as char else c
  }

  /** `s.replace(/([A-Z])/g, " $1")`: a space in front of every capital letter. */
  function SpaceCapitals(s: string): string
  {
    if |s| == 0 then ""
    else (if IsCapital(s[0]) then [' ', s[0]] else [s[0]]) + SpaceCapitals(s[1..])
  }

  /** Every capital of the result comes right after a space; so the result never starts with one. */
  lemma {:induction false} SpaceCapitalsSpaced(s: string)
    ensures var r := SpaceCapitals(s);
            CapitalsSpaced(r) && (|r| > 0 ==> !IsCapital(r[0]))
  {
    if |s| > 0 {
      var head := if IsCapital(s[0]) then [' ', s[0]] else [s[0]];
      var rest := SpaceCapitals(s[1..]);
      SpaceCapitalsSpaced(s[1..]);
      var r := SpaceCapitals(s);
      assert r == head + rest;
      assert r[0] == head[0];
      assert |rest| > 0 ==> r[|head|] == rest[0];
      forall k | 0 < k < |r| && IsCapital(r[k])
        ensures r[k - 1] == ' '
      {
        if k > |head| {
          var j := k - |head|;
          assert r[k] == rest[j];
          assert r[k - 1] == rest[j - 1];
        } else if k < |head| {
          assert r[1] == s[0] && r[0] == ' ';
        }
      }
    }
  }



  /** The number of capital letters in `s`. */
  function Capitals(s: string): (n: nat)
    ensures n <= |s|
  {
    if |s| == 0 then 0 else (if IsCapital(s[0]) then 1 else 0) + Capitals(s[1..])
  }

  /** Exactly one character is inserted per capital letter. */
  lemma {:induction false} SpaceCapitalsLength(s: string)
    ensures |SpaceCapitals(s)| == |s| + Capitals(s)
  {
    if |s| > 0 {
      SpaceCapitalsLength(s[1..]);
    }
  }

  /**
   * The replacement works character by character: spacing a concatenation
   * spaces each part. With `SpaceCapitals([c])` this determines the result.
   */
  lemma {:induction false} SpaceCapitalsAppend(a: string, b: string)
    ensures SpaceCapitals(a + b) == SpaceCapitals(a) + SpaceCapitals(b)
  {
    if |a| == 0 {
      assert a + b == b;
    } else {
      var head := if IsCapital(a[0]) then [' ', a[0]] else [a[0]];
      SpaceCapitalsAppend(a[1..], b);
      assert (a + b)[0] == a[0] && (a + b)[1..] == a[1..] + b;
      assert SpaceCapitals(a + b) == head + SpaceCapitals(a[1..] + b);
      assert SpaceCapitals(a) == head + SpaceCapitals(a[1..]);
    }
  }

  /** A text without capitals is left as it is. */
  lemma {:induction false} SpaceCapitalsNoCapitals(s: string)
    requires forall k :: 0 <= k < |s| ==> !IsCapital(s[k])
    ensures SpaceCapitals(s) == s
  {
    if |s| > 0 {
      SpaceCapitalsNoCapitals(s[1..]);
    }
  }

  /** A single capital gets a space in front. */
  lemma SpaceCapital(c: char)
    requires IsCapital(c)
    ensures SpaceCapitals([c]) == [' ', c]
  {
    assert [c][1..] == [];
  }

  /** Only spaces are inserted: the non-blank characters are those of the input, in order. */
  lemma {:induction false} SpaceCapitalsKeepsNonBlank(s: string)
    ensures NonBlank(SpaceCapitals(s)) == NonBlank(s)
  {
    if |s| > 0 {
      var head := if IsCapital(s[0]) then [' ', s[0]] else [s[0]];
      SpaceCapitalsKeepsNonBlank(s[1..]);
      NonBlankAppend(head, SpaceCapitals(s[1..]));
      if IsCapital(s[0]) {
        NonBlankAppend([' '], [s[0]]);
        assert head == [' '] + [s[0]];
      }
      assert NonBlank([s[0]]) == (if IsJsWhitespace(s[0]) then "" else [s[0]]);
    }
  }

  /** The name with its first character upper-cased. */
  function Capitalized(functionName: string): (c: string)
    requires functionName != ""
  {
    [ToUpper(functionName[0])] + functionName[1..]
  }

  /** `capitalized.split("(")[0]`: the text before the first parenthesis. */
  function NamePart(functionName: string): (p: string)
    requires functionName != ""
  {
    Split(Capitalized(functionName), '(')[0]
  }

  /** The first piece of a split is the longest prefix without the separator. */
  lemma {:induction false} FirstPieceIsPrefix(s: string, sep: char)
    ensures var p := Split(s, sep)[0];
            && p <= s
            && (|p| < |s| ==> s[|p|] == sep)
  {
    if |s| > 0 {
      FirstPieceIsPrefix(s[1..], sep);
    }
  }

  /** The label when no decoded name is used: the raw selector, "0x" read as "Transfer". */
  function Fallback(methodId: string): (r: string)
    ensures methodId == "0x" ==> r == "Transfer"
    ensures methodId != "0x" ==> r == methodId
  {
    if methodId == "0x" then "Transfer" else methodId
  }

  /** `formatFunctionName(item)`. An absent `functionName` is the empty string. */
  function FormatFunctionName(item: Scanners.Transaction): (r: string)
    ensures item.functionName == "" ==> r == Fallback(item.methodId)
    ensures item.functionName != "" && item.functionName[0] == '(' ==> r == Fallback(item.methodId)
  {
    if item.functionName == "" then Fallback(item.methodId)
    else
      var name := NamePart(item.functionName);
      if name == "" then Fallback(item.methodId)
      else Trim(SpaceCapitals(name))
  }

  /**
   * A label derived from a decoded name is built from the text before the
   * first "(" (non-empty, the first character upper-cased): it keeps that
   * text's characters apart from whitespace, contains no "(", puts a space
   * right before every capital after its first character, and has no leading
   * or trailing whitespace.
   */
  lemma DerivedLabel(item: Scanners.Transaction)
    requires item.functionName != "" && item.functionName[0] != '('
    ensures var c := Capitalized(item.functionName);
            var p := NamePart(item.functionName);
            && p != "" && p <= c && '(' !in p && (|p| < |c| ==> c[|p|] == '(')
            && c[0] == ToUpper(item.functionName[0])
    ensures var r := FormatFunctionName(item);
            && NonBlank(r) == NonBlank(NamePart(item.functionName))
            && '(' !in r
            && CapitalsSpaced(r)
            && (r == [] || (!IsJsWhitespace(r[0]) && !IsJsWhitespace(r[|r| - 1])))
  {
    var c := Capitalized(item.functionName);
    FirstPieceIsPrefix(c, '(');
    assert c[0] != '(';
    SpacedLabel(NamePart(item.functionName));
  }

  /** Every capital after the first character comes right after a space. */
  predicate CapitalsSpaced(s: string) {
    forall k :: 0 < k < |s| && IsCapital(s[k]) ==> s[k - 1] == ' '
  }

  /** The properties of `Trim(SpaceCapitals(p))` for a text without "(". */
  lemma SpacedLabel(p: string)
    requires '(' !in p
    ensures var r := Trim(SpaceCapitals(p));
            && NonBlank(r) == NonBlank(p)
            && '(' !in r
            && CapitalsSpaced(r)
  {
    var spaced := SpaceCapitals(p);
    SpaceCapitalsKeepsNonBlank(p);
    TrimKeepsNonBlank(spaced);
    SpaceCapitalsChars(p);
    SpaceCapitalsSpaced(p);
    TrimKeepsChars(spaced);
  }

  /** Trimming keeps a slice: no new character, and capitals stay spaced. */
  lemma TrimKeepsChars(s: string)
    ensures forall x :: x in Trim(s) ==> x in s
    ensures CapitalsSpaced(s) ==> CapitalsSpaced(Trim(s))
  {
    var r := Trim(s);
    var k := |s| - |TrimStart(s)|;
    assert r == s[k..k + |r|];
    if CapitalsSpaced(s) {
      forall j | 0 < j < |r| && IsCapital(r[j])
        ensures r[j - 1] == ' '
      {
        assert r[j] == s[k + j] && r[j - 1] == s[k + j - 1];
      }
    }
  }

  /** The characters of the spaced name are those of the name, and spaces. */
  lemma {:induction false} SpaceCapitalsChars(s: string)
    ensures forall x :: x in SpaceCapitals(s) ==> x in s || x == ' '
  {
    if |s| > 0 {
      SpaceCapitalsChars(s[1..]);
    }
  }

  /**
   * "transferFrom(address,address,uint256)", and any other argument list
   * after "transferFrom(", is labelled "Transfer From".
   */
  lemma TransferFromLabel(item: Scanners.Transaction, args: string)
    requires item.functionName == "transferFrom" + "(" + args
    ensures FormatFunctionName(item) == "Transfer From"
  {
    TransferFromName(args);
    TransferFromSpaced();
    TransferFromTrimmed();
    assert |item.functionName| > 0;
  }

  lemma TransferFromName(args: string)
    ensures NamePart("transferFrom" + "(" + args) == "Transfer" + "From"
  {
    var word := "transferFrom";
    assert word[0] == 't' && word[1..] == "ransferFrom";
    NamePartOfCall(word, args);
  }

  lemma TransferFromTrimmed()
    ensures Trim([' '] + "Transfer From") == "Transfer From"
  {
    var t := "Transfer From";
    assert t[0] == 'T' && t[|t| - 1] == 'm';
    TrimLeadingSpace(t);
  }

  lemma TransferFromSpaced()
    ensures SpaceCapitals("Transfer" + "From") == [' '] + "Transfer From"
  {
    WordSpaced("Transfer", " Transfer");
    WordSpaced("From", " From");
    SpaceCapitalsAppend("Transfer", "From");
  }

  /** A word with one leading capital, spelled out. */
  lemma WordSpaced(word: string, spaced: string)
    requires |word| > 0 && IsCapital(word[0]) && forall k :: 0 < k < |word| ==> !IsCapital(word[k])
    requires spaced == [' '] + word
    ensures SpaceCapitals(word) == spaced
  {
    assert word == [word[0]] + word[1..];
    SpacedWord(word[0], word[1..]);
  }




  /** A capital followed by no capital: one space goes in front of the word. */
  lemma SpacedWord(c: char, rest: string)
    requires IsCapital(c) && forall k :: 0 <= k < |rest| ==> !IsCapital(rest[k])
    ensures SpaceCapitals([c] + rest) == [' ', c] + rest
  {
    SpaceCapitalsAppend([c], rest);
    SpaceCapital(c);
    SpaceCapitalsNoCapitals(rest);
  }

  /** The name part of `name(args)` is `name`, capitalized. */
  lemma NamePartOfCall(name: string, args: string)
    requires name != "" && '(' !in name
    ensures NamePart(name + ['('] + args) == [ToUpper(name[0])] + name[1..]
  {
    var fn := name + ['('] + args;
    var up := [ToUpper(name[0])] + name[1..];
    assert fn[0] == name[0] && fn[1..] == name[1..] + ['('] + args;
    assert Capitalized(fn) == up + ['('] + args;
    SplitAfterPiece(up, args, '(');
  }

  /** One leading space in front of an already trimmed text is cut off. */
  lemma TrimLeadingSpace(t: string)
    requires t != "" && !IsJsWhitespace(t[0]) && !IsJsWhitespace(t[|t| - 1])
    ensures Trim([' '] + t) == t
  {
    assert ([' '] + t)[1..] == t;
    assert TrimStart([' '] + t) == t;
  }
}
