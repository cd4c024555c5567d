/** The three pure helpers of the BOSCH page: the reference-code cleaner, the
    depot-code reader and the space-free display key. */
module BoschCodes {
  import opened Strings
  import opened Cells

  /** The prefix every cleaned Bosch reference carries. */
  const CodePrefix: string := "3E-"

  /** The only depot codes the output accepts, lower-case. */
  const DepotCodes: seq<string> := ["aas", "das", "mas", "bas", "eas"]

  /** A reference with surrounding whitespace stripped and every space deleted. */
  function CleanCode(s: string): (r: string)
    ensures ' ' !in r && |r| <= |s|
  {
    RemoveSpaces(Strip(s))
  }

  /** A cleaned reference has no whitespace at either end either. */
  lemma CleanCodeTrimmed(s: string)
    ensures Trimmed(CleanCode(s))
  {
    var t := Strip(s);
    if t != [] {
      RemoveSpacesKeepsFirst(t);
      RemoveSpacesKeepsLast(t);
    }
  }

  /** `process_bosch_codes`: "" for a missing cell; otherwise the cleaned
      reference, with "3E-" put in front unless it is already there. */
  function ProcessBoschCode(c: Cell): (r: string) {
    match c
    case Missing => ""
    case Text(s) =>
      var code := CleanCode(s);
      if StartsWith(code, CodePrefix) then code else CodePrefix + code
  }

  /** A missing reference becomes ""; a present one becomes a space-free
      code that starts with "3E-", the cleaned reference itself when it
      already carried the prefix and the prefix followed by it otherwise. */
  lemma ProcessBoschCodeSpec(c: Cell)
    ensures c.Missing? ==> ProcessBoschCode(c) == ""
    ensures c.Text? ==> StartsWith(ProcessBoschCode(c), CodePrefix) && ' ' !in ProcessBoschCode(c)
    ensures c.Text? && StartsWith(CleanCode(c.text), CodePrefix) ==> ProcessBoschCode(c) == CleanCode(c.text)
    ensures c.Text? && !StartsWith(CleanCode(c.text), CodePrefix) ==>
      ProcessBoschCode(c) == CodePrefix + CleanCode(c.text)
  {
    if c.Text? {
      PrefixedCode(CleanCode(c.text));
    }
  }

  /** Putting the prefix in front of a space-free code gives a space-free
      code that starts with the prefix. */
  lemma PrefixedCode(code: string)
    requires ' ' !in code
    ensures StartsWith(CodePrefix + code, CodePrefix) && ' ' !in CodePrefix + code
  {
    assert (CodePrefix + code)[..|CodePrefix|] == CodePrefix;
    assert ' ' !in CodePrefix;
  }

  /** The lower-cased first three characters of `t` when they are a
      whitelisted code, else "". */
  function WhitelistedHead(t: string): (r: string)
    ensures r == "" || r in DepotCodes
  {
    if |t| >= 3 && Lower(t[..3]) in DepotCodes then Lower(t[..3]) else ""
  }

  /** `determine_depot_code`: the lower-cased first three characters of the
      stripped order note when they name a whitelisted depot, else "". */
  function DepotCode(note: Cell): (r: string)
    ensures r == "" || r in DepotCodes
  {
    match note
    case Missing => ""
    case Text(s) =>
      if s == "" then "" else WhitelistedHead(Strip(s))
  }

  /** `create_sutun1`: order note and Bosch number, each with its spaces
      deleted, one after the other; a missing argument contributes "". */
  function Sutun1(note: Cell, boschNo: Cell): (r: string)
    ensures ' ' !in r
  {
    RemoveSpaces(OrEmpty(note)) + RemoveSpaces(OrEmpty(boschNo))
  }

  /** The composite join key pandas builds with `astype(str).str.replace(' ', '')`
      on two columns and `+`: a missing cell takes part as the text "nan". */
  function CompositeKey(first: Cell, second: Cell): (r: string)
    ensures ' ' !in r
  {
    RemoveSpaces(AsStr(first)) + RemoveSpaces(AsStr(second))
  }

  /** Cleaning a present reference twice is cleaning it once: the result is
      already stripped, space-free and prefixed. */
  lemma ProcessBoschCodeIdempotent(s: string)
    ensures ProcessBoschCode(Text(ProcessBoschCode(Text(s)))) == ProcessBoschCode(Text(s))
  {
    var r := ProcessBoschCode(Text(s));
    ProcessBoschCodeSpec(Text(s));
    PrefixedIsTrimmed(s);
    StripTrimmed(r);
    RemoveSpacesNoSpace(r);
    assert CleanCode(r) == r;
  }

  /** A processed present reference has no whitespace at either end. */
  lemma PrefixedIsTrimmed(s: string)
    ensures Trimmed(ProcessBoschCode(Text(s)))
  {
    CleanCodeTrimmed(s);
    PrefixKeepsTrimmed(CleanCode(s));
  }

  lemma PrefixKeepsTrimmed(code: string)
    requires Trimmed(code)
    ensures Trimmed(CodePrefix + code)
  {
    var r := CodePrefix + code;
    assert r[0] == '3';
    assert code != [] ==> r[|r| - 1] == code[|code| - 1];
    assert code == [] ==> r[|r| - 1] == '-';
  }

  /** The missing case is the exception: a missing cell gives "", and ""
      is then a present reference that gets the prefix. */
  lemma ProcessBoschCodeMissingTwice()
    ensures ProcessBoschCode(Missing) == ""
    ensures ProcessBoschCode(Text(ProcessBoschCode(Missing))) == CodePrefix
  {
    assert Strip("") == "";
  }

  /** The depot code is `d` exactly when the stripped, lower-cased note begins
      with the whitelisted code `d`. */
  lemma DepotCodeIsWhitelistedPrefix(note: Cell, d: string)
    requires d in DepotCodes
    ensures DepotCode(note) == d <==> note.Text? && StartsWith(Lower(Strip(note.text)), d)
  {
    if note.Text? {
      DepotCodeOfText(note.text);
      WhitelistedPrefix(Strip(note.text), d);
    }
  }

  /** The depot code of a present note, the empty note included, read off
      its stripped text. */
  lemma DepotCodeOfText(s: string)
    ensures DepotCode(Text(s)) == WhitelistedHead(Strip(s))
  {
    if s == "" {
      StripEmpty();
    }
  }

  lemma WhitelistedPrefix(t: string, d: string)
    requires d in DepotCodes
    ensures WhitelistedHead(t) == d <==> StartsWith(Lower(t), d)
  {
    assert |d| == 3;
    ThreeLetterPrefix(t, d);
  }

  lemma StripEmpty()
    ensures Strip("") == ""
  {
  }

  lemma ThreeLetterPrefix(t: string, d: string)
    requires |d| == 3
    ensures (|t| >= 3 && Lower(t[..3]) == d) <==> StartsWith(Lower(t), d)
  {
    if |t| >= 3 {
      LowerPrefix(t, 3);
    }
  }

  /** No whitelisted code starts the stripped, lower-cased note exactly when
      the depot code is empty. */
  lemma DepotCodeEmpty(note: Cell)
    ensures DepotCode(note) == "" <==>
      forall d :: d in DepotCodes ==> !(note.Text? && StartsWith(Lower(Strip(note.text)), d))
  {
    forall d | d in DepotCodes {
      DepotCodeIsWhitelistedPrefix(note, d);
    }
  }

  /** A missing note, and a note shorter than three characters once
      stripped, give no depot code. */
  lemma DepotCodeMissingOrShort(note: Cell)
    ensures note.Missing? ==> DepotCode(note) == ""
    ensures note.Text? && |Strip(note.text)| < 3 ==> DepotCode(note) == ""
  {
    if note.Text? {
      DepotCodeOfText(note.text);
    }
  }

  /** Worked example: a whitelisted prefix in upper case is accepted. */
  lemma DepotCodeUpperCaseExample()
    ensures DepotCode(Text("AAS123")) == "aas"
  {
    StripTrimmed("AAS123");
    DepotCodeOfText("AAS123");
    assert "AAS123"[..3] == "AAS";
    LowerAAS();
    assert "aas" in DepotCodes;
  }

  lemma LowerAAS()
    ensures Lower("AAS") == "aas"
  {
    var r := Lower("AAS");
    assert r[0] == 'a' && r[1] == 'a' && r[2] == 's';
  }

  /** Worked example: an unknown prefix gives no depot code. */
  lemma DepotCodeUnknownExample()
    ensures DepotCode(Text("ZZZ999")) == ""
  {
    StripTrimmed("ZZZ999");
    DepotCodeOfText("ZZZ999");
    assert "ZZZ999"[..3] == "ZZZ";
    LowerZZZ();
    assert "zzz" !in DepotCodes;
  }

  lemma LowerZZZ()
    ensures Lower("ZZZ") == "zzz"
  {
    var r := Lower("ZZZ");
    assert r[0] == 'z' && r[1] == 'z' && r[2] == 'z';
  }

  /** Worked example: a whitelisted prefix in lower case is kept. */
  lemma DepotCodeLowerCaseExample()
    ensures DepotCode(Text("das-x")) == "das"
  {
    StripTrimmed("das-x");
    DepotCodeOfText("das-x");
    assert "das-x"[..3] == "das";
    LowerDas();
    assert "das" in DepotCodes;
  }

  lemma LowerDas()
    ensures Lower("das") == "das"
  {
    var r := Lower("das");
    assert r[0] == 'd' && r[1] == 'a' && r[2] == 's';
  }

  /** Worked example: a note shorter than three characters gives no depot code. */
  lemma DepotCodeShortNoteExample()
    ensures DepotCode(Text("ma")) == ""
  {
    assert |Strip("ma")| <= 2;
    DepotCodeMissingOrShort(Text("ma"));
  }

  /** The display key is the concatenation of note and number with every
      space deleted. */
  lemma Sutun1IsConcatenationWithoutSpaces(note: Cell, boschNo: Cell)
    ensures Sutun1(note, boschNo) == RemoveSpaces(OrEmpty(note) + OrEmpty(boschNo))
  {
    RemoveSpacesConcat(OrEmpty(note), OrEmpty(boschNo));
  }

  /** For a present note the display key and the join key coincide. */
  lemma KeysAgreeOnPresentNote(note: Cell, boschNo: string)
    requires note.Text?
    ensures Sutun1(note, Text(boschNo)) == CompositeKey(note, Text(boschNo))
  {
  }

  /** For a missing note they differ: the join key carries "nan" in front. */
  lemma KeysDifferOnMissingNote(boschNo: string)
    ensures CompositeKey(Missing, Text(boschNo)) == "nan" + Sutun1(Missing, Text(boschNo))
    ensures CompositeKey(Missing, Text(boschNo)) != Sutun1(Missing, Text(boschNo))
  {
    RemoveSpacesNoSpace("nan");
    assert RemoveSpaces("") == "";
  }
}
