/** Short links to recipes: the code is the URL-safe base64 of the recipe id's decimal text,
    and the redirect view decodes it back into the id. */
module ShortLinks {
  import opened Wrappers
  import opened Decimal
  import opened Base64Url
  import opened RecipesModels

  /** `.encode('utf-8')` on text whose characters are all ASCII: one byte per character. */
  function AsciiBytes(s: string): (bs: seq<byte>)
    requires forall i :: 0 <= i < |s| ==> s[i] as int < 128
    ensures |bs| == |s| && forall i :: 0 <= i < |s| ==> bs[i] == s[i] as int
  {
    if |s| == 0 then [] else AsciiBytes(s[..|s| - 1]) + [s[|s| - 1] as int]
  }

  /** `.decode('utf-8')` on bytes that are all below 128. */
  function AsciiText(bs: seq<byte>): (s: string)
    requires forall i :: 0 <= i < |bs| ==> bs[i] < 128
    ensures |s| == |bs| && forall i :: 0 <= i < |bs| ==> s[i] as int == bs[i]
  {
    if |bs| == 0 then [] else AsciiText(bs[..|bs| - 1]) + [bs[|bs| - 1] as char]
  }

  predicate IsAscii(bs: seq<byte>) {
    forall i :: 0 <= i < |bs| ==> bs[i] < 128
  }

  lemma DigitsAreAscii(s: string)
    requires AllDigits(s)
    ensures forall i :: 0 <= i < |s| ==> s[i] as int < 128
  {
    forall i | 0 <= i < |s| ensures s[i] as int < 128 {
      assert IsDigit(s[i]);
    }
  }

  /** `urlsafe_base64_encode(str(id).encode('utf-8'))`. */
  function ShortCode(id: RecipeId): (code: string)
    ensures AllUrlSafe(code)
  {
    var text := NatToDecimal(id);
    DigitsAreAscii(text);
    Encode(AsciiBytes(text))
  }

  /** The path `get_link` answers with, before the host is prefixed. */
  function ShortPath(id: RecipeId): (path: string)
    ensures path == "/s/" + ShortCode(id) + "/"
  {
    "/s/" + ShortCode(id) + "/"
  }

  /** The page a recipe's short link leads to. */
  function RecipePath(id: RecipeId): string {
    "/recipes/" + NatToDecimal(id) + "/"
  }

  /** The redirect view's answer: a redirect, a 404, or a code it cannot read (for which the
      view raises). */
  datatype Redirect = RedirectTo(path: string) | NotFound | Malformed

  /** `ShortLinkRedirectView.get` over the set of existing recipe ids: decode the code,
      read it as UTF-8 text, parse it with `int()`, look the recipe up and redirect to it. */
  function Resolve(recipes: set<RecipeId>, code: string): (r: Redirect)
    ensures r.RedirectTo? ==> exists id :: id in recipes && r.path == RecipePath(id)
    ensures Decode(code).Some? && IsAscii(Decode(code).value) && IsIntLiteral(AsciiText(Decode(code).value)) ==>
      var n := ParseInt(AsciiText(Decode(code).value)).value;
      r == if n >= 0 && n in recipes then RedirectTo(RecipePath(n)) else NotFound
    ensures r == Malformed <==> match Decode(code)
      case None => true
      case Some(bs) => !IsAscii(bs) || !IsIntLiteral(AsciiText(bs))
  {
    match Decode(code)
    case None => Malformed
    case Some(bs) =>
      if !IsAscii(bs) then Malformed
      else
        match ParseInt(AsciiText(bs))
        case None => Malformed
        case Some(n) => if n >= 0 && n in recipes then RedirectTo(RecipePath(n)) else NotFound
  }

  lemma {:induction false} AsciiRoundTrip(s: string)
    requires forall i :: 0 <= i < |s| ==> s[i] as int < 128
    ensures IsAscii(AsciiBytes(s)) && AsciiText(AsciiBytes(s)) == s
  {
    if |s| > 0 {
      AsciiRoundTrip(s[..|s| - 1]);
      var bs := AsciiBytes(s);
      assert bs[..|bs| - 1] == AsciiBytes(s[..|s| - 1]);
      assert s == s[..|s| - 1] + [s[|s| - 1]];
    }
  }

  /** The redirect decodes the code `get_link` hands out back into the same recipe: an
      existing recipe's short link leads to its page, and a deleted recipe's to a 404. */
  lemma ShortLinkRoundTrip(recipes: set<RecipeId>, id: RecipeId)
    ensures Resolve(recipes, ShortCode(id)) == if id in recipes then RedirectTo(RecipePath(id)) else NotFound
  {
    var text := NatToDecimal(id);
    DigitsAreAscii(text);
    AsciiRoundTrip(text);
    DecodeEncode(AsciiBytes(text));
    ParseIntOfDecimal(id);
  }

  /** Different recipes get different short codes. */
  lemma ShortCodeInjective(a: RecipeId, b: RecipeId)
    requires ShortCode(a) == ShortCode(b)
    ensures a == b
  {
    var ta, tb := NatToDecimal(a), NatToDecimal(b);
    DigitsAreAscii(ta);
    DigitsAreAscii(tb);
    DecodeEncode(AsciiBytes(ta));
    DecodeEncode(AsciiBytes(tb));
    AsciiRoundTrip(ta);
    AsciiRoundTrip(tb);
    DecimalInjective(a, b);
  }
}
