/** stellar.Asset: parsing, printing and comparing assets. */
module Assets {
  import opened Go
  import opened Collections
  import opened Keypair

  datatype Asset = Asset(code: string, issuer: string) {

    predicate IsNative() {
      code == "XLM" && issuer == ""
    }

    /** The canonical wire form. */
    function String(): string {
      if IsNative() then "XLM" else code + ":" + issuer
    }

    predicate Equal(other: Asset) {
      (IsNative() && other.IsNative()) || (code == other.code && issuer == other.issuer)
    }
  }

  const NATIVE: Asset := Asset("XLM", "")

  predicate IsCodeChar(c: char) {
    'A' <= c <= 'Z' || '0' <= c <= '9'
  }

  /** 1 to 12 upper-case letters and digits */
  predicate IsCode(s: string) {
    1 <= |s| <= 12 && forall i :: 0 <= i < |s| ==> IsCodeChar(s[i])
  }

  /** Index of the first colon, or |s|. */
  function ColonAt(s: string): (i: nat)
    ensures i <= |s|
    ensures i < |s| ==> s[i] == ':'
    ensures forall j :: 0 <= j < i ==> s[j] != ':'
  {
    if s == "" || s[0] == ':' then 0 else 1 + ColonAt(s[1..])
  }

  /** ParseAsset; None stands for ErrInvalidAsset. */
  function ParseAsset(s: string): Option<Asset> {
    var trim := TrimSpace(s);
    if trim == "" then None
    else if ToLower(trim) == "xlm" || ToLower(trim) == "native" then Some(NATIVE)
    else
      var i := ColonAt(trim);
      if i == |trim| then None
      else
        var code, issuer := ToUpper(trim[..i]), trim[i + 1..];
        if IsCode(code) && IsPublicKey(issuer) then Some(Asset(code, issuer)) else None
  }

  /** The assets that parsing produces. */
  predicate Parsed(a: Asset) {
    a == NATIVE || (IsCode(a.code) && IsPublicKey(a.issuer))
  }

  lemma ParsedIsParsed(s: string)
    ensures ParseAsset(s).Some? ==> Parsed(ParseAsset(s).value)
  {
  }

  lemma PrintedShape(a: Asset)
    requires Parsed(a) && a != NATIVE
    ensures a.String() == a.code + ":" + a.issuer
    ensures TrimSpace(a.String()) == a.String()
    ensures ColonAt(a.String()) == |a.code|
    ensures ToUpper(a.code) == a.code
  {
    var s := a.String();
    assert s[0] == a.code[0] && s[|s| - 1] == a.issuer[55];
    TrimSpaceFixes(s);
    assert forall i :: 0 <= i < |a.code| ==> s[i] == a.code[i];
    assert s[|a.code|] == ':';
  }

  lemma ParseNative(s: string)
    requires |s| == 3 && s[0] == 'X' && s[1] == 'L' && s[2] == 'M'
    ensures ParseAsset(s) == Some(NATIVE)
  {
    TrimSpaceFixes(s);
    LowerXlm(s);
  }

  lemma LowerXlm(s: string)
    requires |s| == 3 && s[0] == 'X' && s[1] == 'L' && s[2] == 'M'
    ensures ToLower(s) == "xlm"
  {
  }

  lemma ParseIssued(a: Asset, s: string)
    requires Parsed(a) && a != NATIVE && s == a.String()
    ensures ParseAsset(s) == Some(a)
  {
    PrintedShape(a);
    assert |s| == |a.code| + 57;
    assert |ToLower(s)| == |s|;
    assert s[..|a.code|] == a.code;
    assert s[|a.code| + 1..] == a.issuer;
  }

  /** Printing a parsed asset and parsing it again gives it back. */
  lemma ParsePrinted(a: Asset)
    requires Parsed(a)
    ensures ParseAsset(a.String()) == Some(a)
  {
    if a == NATIVE {
      ParseNative(a.String());
    } else {
      ParseIssued(a, a.String());
    }
  }

  /** Print after parse: the canonical form of a text. */
  function Canonical(s: string): Option<string> {
    var a := ParseAsset(s);
    if a.None? then None else Some(a.value.String())
  }

  /** Every asset parsing produces survives printing, and the canonical form is its own. */
  lemma CanonicalIsIdempotent(s: string)
    ensures ParseAsset(s).Some? ==> ParseAsset(ParseAsset(s).value.String()) == ParseAsset(s)
    ensures Canonical(s).Some? ==> Canonical(Canonical(s).value) == Canonical(s)
  {
    if ParseAsset(s).Some? {
      ParsedIsParsed(s);
      ParsePrinted(ParseAsset(s).value);
    }
  }

  /** On parsed assets Equal is equality of the printed forms; in particular an issued XLM
      differs from the native one. */
  lemma EqualIffPrintedSame(a: Asset, b: Asset)
    requires Parsed(a) && Parsed(b)
    ensures a.Equal(b) <==> a.String() == b.String()
    ensures a.Equal(b) <==> a == b
  {
    ParsePrinted(a);
    ParsePrinted(b);
  }

  /** Native exactly when the text says xlm or native, in any case and between spaces. */
  lemma NativeIff(s: string)
    ensures ParseAsset(s) == Some(NATIVE) <==>
            ToLower(TrimSpace(s)) == "xlm" || ToLower(TrimSpace(s)) == "native"
  {
    assert !IsPublicKey("");
  }

  lemma ColonIsFirst(raw: string, issuer: string)
    requires ':' !in raw
    ensures ColonAt(raw + ":" + issuer) == |raw|
  {
    var s := raw + ":" + issuer;
    assert s[|raw|] == ':';
    assert forall i :: 0 <= i < |raw| ==> s[i] == raw[i];
  }

  lemma WithColonIsNotNative(trim: string, k: nat)
    requires k < |trim| && trim[k] == ':'
    ensures ToLower(trim) != "xlm" && ToLower(trim) != "native"
  {
    assert ToLower(trim)[k] == ':';
  }

  /** A text that is a code, a colon and an issuer once trimmed is that asset, its code in upper
      case, exactly if the code and the issuer are well formed; everything else that is not
      native is refused. */
  lemma IssuedIff(s: string, raw: string, issuer: string)
    requires TrimSpace(s) == raw + ":" + issuer && ':' !in raw
    ensures ParseAsset(s) ==
            if IsCode(ToUpper(raw)) && IsPublicKey(issuer) then Some(Asset(ToUpper(raw), issuer)) else None
  {
    var trim := raw + ":" + issuer;
    ColonIsFirst(raw, issuer);
    WithColonIsNotNative(trim, |raw|);
    assert trim[..|raw|] == raw && trim[|raw| + 1..] == issuer;
  }

  lemma NeedsColon(s: string)
    requires ':' !in s
    ensures ParseAsset(s).Some? ==> ParseAsset(s) == Some(NATIVE)
  {
    var l, r := TrimSpaceTrims(s);
    ColonInTrim(l, TrimSpace(s), r);
  }

  lemma ColonInTrim(l: string, t: string, r: string)
    requires ':' !in l + t + r
    ensures ':' !in t
  {
  }

  /** Up to 12 letters in either case, and digits, make a code; each letter comes out in
      upper case. */
  lemma CodesInEitherCase(raw: string)
    requires 1 <= |raw| <= 12
    requires forall i :: 0 <= i < |raw| ==> 'a' <= raw[i] <= 'z' || 'A' <= raw[i] <= 'Z' || '0' <= raw[i] <= '9'
    ensures IsCode(ToUpper(raw)) && |ToUpper(raw)| == |raw|
    ensures forall i :: 0 <= i < |raw| ==>
              ToUpper(raw)[i] as int == if raw[i] >= 'a' then raw[i] as int - 32 else raw[i] as int
  {
    forall i | 0 <= i < |raw|
      ensures IsCodeChar(ToUpper(raw)[i])
      ensures ToUpper(raw)[i] as int == if raw[i] >= 'a' then raw[i] as int - 32 else raw[i] as int
    {
      assert ToUpper(raw)[i] == UpperChar(raw[i]);
    }
  }
}
