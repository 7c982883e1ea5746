/** The two promo-code generators: rejection sampling of random codes over
    `A-Z0-9` (`generate_promo_code`) and the "smart" generator that tries five
    templated candidates first (`generate_smart_promo_code`). The codes already
    in the `promocodes` table are a set; the random draws are inputs. */
module PromoCodes {
  import opened Common
  import opened Text

  /** `len(string.ascii_uppercase + string.digits)` */
  const AlphabetSize: nat := 36

  const DefaultCodeLength: nat := 8

  predicate IsCodeChar(c: char) { IsUpper(c) || IsDigit(c) }

  /** A code made of upper-case letters and digits only. */
  predicate IsCode(s: string) {
    forall i :: 0 <= i < |s| ==> IsCodeChar(s[i])
  }

  /** Character `d` of `string.ascii_uppercase + string.digits`. */
  function AlphabetChar(d: nat): (c: char)
    requires d < AlphabetSize
    ensures IsCodeChar(c)
    ensures d < 26 <==> IsUpper(c)
    ensures d >= 26 ==> IsDigit(c) && DigitValue(c) == d - 26
  {
    if d < 26 then ('A' as int + d) as char else DigitChar(d - 26)
  }

  /** The position of a code character in that alphabet. */
  function AlphabetIndex(c: char): (d: nat)
    requires IsCodeChar(c)
    ensures d < AlphabetSize && AlphabetChar(d) == c
  {
    if IsUpper(c) then c as int - 'A' as int else 26 + DigitValue(c)
  }

  /** Every index names a different character: the alphabet has 36 members. */
  lemma AlphabetInjective(d: nat, e: nat)
    requires d < AlphabetSize && e < AlphabetSize && AlphabetChar(d) == AlphabetChar(e)
    ensures d == e
  {
  }

  /** One random draw per character: each is an index into the alphabet, as
      `random.choice(chars)` guarantees. */
  predicate ValidDraws(draws: seq<nat>) {
    forall i :: 0 <= i < |draws| ==> draws[i] < AlphabetSize
  }

  /** `''.join(random.choice(chars) for _ in range(length))` for given draws. */
  function Render(draws: seq<nat>): (code: string)
    requires ValidDraws(draws)
    ensures |code| == |draws| && IsCode(code)
    ensures forall i :: 0 <= i < |code| ==> AlphabetIndex(code[i]) == draws[i]
  {
    seq(|draws|, i requires 0 <= i < |draws| => AlphabetChar(draws[i]))
  }

  /** The candidates the rejection loop tries, one per attempt, in order. */
  function Renders(attempts: seq<seq<nat>>): (cs: seq<string>)
    requires forall a :: a in attempts ==> ValidDraws(a)
    ensures |cs| == |attempts|
    ensures forall i :: 0 <= i < |cs| ==> cs[i] == Render(attempts[i])
  {
    seq(|attempts|, i requires 0 <= i < |attempts| => Render(attempts[i]))
  }

  /** The position of the first candidate not yet used, or |cs| if all are. */
  function FirstUnusedIndex(cs: seq<string>, used: set<string>): (k: nat)
    ensures k <= |cs|
    ensures forall j :: 0 <= j < k ==> cs[j] in used
    ensures k < |cs| ==> cs[k] !in used
  {
    if cs == [] then 0
    else if cs[0] !in used then 0
    else 1 + FirstUnusedIndex(cs[1..], used)
  }

  /** The characterisation of FirstUnusedIndex determines it. */
  lemma FirstUnusedIndexIs(cs: seq<string>, used: set<string>, i: nat)
    requires i <= |cs|
    requires forall j :: 0 <= j < i ==> cs[j] in used
    requires i < |cs| ==> cs[i] !in used
    ensures FirstUnusedIndex(cs, used) == i
  {
  }

  /** The first candidate not yet used, if any. */
  function FirstUnused(cs: seq<string>, used: set<string>): (r: Option<string>)
    ensures r.Some? ==> r.value in cs && r.value !in used
    ensures r.Some? ==> exists k :: 0 <= k < |cs| && cs[k] == r.value && forall j :: 0 <= j < k ==> cs[j] in used
    ensures r.None? <==> forall j :: 0 <= j < |cs| ==> cs[j] in used
  {
    var k := FirstUnusedIndex(cs, used);
    if k < |cs| then Some(cs[k]) else None
  }

  /** `generate_promo_code(length)`: draw codes until one is not in `codes`.
      `attempts` are the successive draws; the result is None only when every
      supplied attempt collided (the source would go on drawing). */
  method GeneratePromoCode(codes: set<string>, length: nat, attempts: seq<seq<nat>>)
    returns (code: Option<string>)
    requires forall a :: a in attempts ==> |a| == length && ValidDraws(a)
    ensures code == FirstUnused(Renders(attempts), codes)
    ensures code.Some? ==> code.value !in codes && |code.value| == length && IsCode(code.value)
    ensures code.None? <==> forall a :: a in attempts ==> Render(a) in codes
  {
    ghost var cands := Renders(attempts);
    var i := 0;
    while i < |attempts|
      invariant 0 <= i <= |attempts|
      invariant forall j :: 0 <= j < i ==> cands[j] in codes
    {
      var candidate := Render(attempts[i]);
      if candidate !in codes {
        FirstUnusedIndexIs(cands, codes, i);
        return Some(candidate);
      }
      i := i + 1;
    }
    FirstUnusedIndexIs(cands, codes, i);
    code := None;
  }

  const PrefixWords: seq<string> := ["VIP", "BONUS", "SALE", "GIFT"]
  const SeasonWords: seq<string> := ["SUMMER", "WINTER", "SPRING", "AUTUMN"]
  const HypeWords: seq<string> := ["NEW", "SPECIAL", "MEGA", "SUPER"]
  const OfferWords: seq<string> := ["DISCOUNT", "PROMO", "BONUS", "GIFT"]

  /** The random values the five templates draw: a word index (`random.choice`)
      and a number (`random.randint`) for each. */
  datatype SmartDraws = SmartDraws(
    prefix: nat, prefixNumber: int,
    season: nat, seasonNumber: int,
    hype: nat, hypeNumber: int,
    codeNumber: int,
    offer: nat, offerNumber: int)

  /** The ranges `random.choice` and `random.randint` guarantee. */
  predicate ValidSmartDraws(d: SmartDraws) {
    && d.prefix < 4 && 1000 <= d.prefixNumber <= 9999
    && d.season < 4 && 10 <= d.seasonNumber <= 99
    && d.hype < 4 && 100 <= d.hypeNumber <= 999
    && 10000 <= d.codeNumber <= 99999
    && d.offer < 4 && 1 <= d.offerNumber <= 99
  }

  /** A templated code: upper-case letters, digits and underscores, ending in a digit. */
  predicate IsSmartCode(s: string) {
    && |s| > 0
    && IsDigit(s[|s| - 1])
    && forall i :: 0 <= i < |s| ==> IsCodeChar(s[i]) || s[i] == '_'
  }

  predicate IsWord(w: string) {
    forall i :: 0 <= i < |w| ==> IsUpper(w[i])
  }

  lemma WordListsAreUpperCase()
    ensures forall i :: 0 <= i < 4 ==> IsWord(PrefixWords[i]) && IsWord(SeasonWords[i])
    ensures forall i :: 0 <= i < 4 ==> IsWord(HypeWords[i]) && IsWord(OfferWords[i])
  {
  }

  function Templated(word: string, sep: string, n: nat): (s: string)
    requires IsWord(word) && (sep == "" || sep == "_")
    ensures IsSmartCode(s)
  {
    word + sep + NatToDecimal(n)
  }

  /** The five templated candidates, in the order the source tries them:
      `{VIP|BONUS|SALE|GIFT}{1000-9999}`, `{season}_{10-99}`,
      `{NEW|SPECIAL|MEGA|SUPER}_{100-999}`, `CODE{10000-99999}` and
      `{DISCOUNT|PROMO|BONUS|GIFT}_{1-99}`. */
  function SmartCandidates(d: SmartDraws): (cs: seq<string>)
    requires ValidSmartDraws(d)
    ensures |cs| == 5
    ensures forall i :: 0 <= i < 5 ==> IsSmartCode(cs[i])
  {
    WordListsAreUpperCase();
    [ Templated(PrefixWords[d.prefix], "", d.prefixNumber),
      Templated(SeasonWords[d.season], "_", d.seasonNumber),
      Templated(HypeWords[d.hype], "_", d.hypeNumber),
      Templated("CODE", "", d.codeNumber),
      Templated(OfferWords[d.offer], "_", d.offerNumber) ]
  }

  /** `generate_smart_promo_code()`: the first templated candidate not in `codes`;
      when all five collide, a random 8-character code as `generate_promo_code`
      draws it. */
  method GenerateSmartPromoCode(codes: set<string>, draws: SmartDraws, attempts: seq<seq<nat>>)
    returns (code: Option<string>)
    requires ValidSmartDraws(draws)
    requires forall a :: a in attempts ==> |a| == DefaultCodeLength && ValidDraws(a)
    ensures code.Some? ==> code.value !in codes
    ensures FirstUnused(SmartCandidates(draws), codes).Some? ==>
              code == FirstUnused(SmartCandidates(draws), codes) && IsSmartCode(code.value)
    ensures FirstUnused(SmartCandidates(draws), codes).None? ==>
              code == FirstUnused(Renders(attempts), codes)
              && (code.Some? ==> |code.value| == DefaultCodeLength && IsCode(code.value))
  {
    var patterns := SmartCandidates(draws);
    code := FirstFresh(patterns, codes);
    if code.None? {
      code := GeneratePromoCode(codes, DefaultCodeLength, attempts);
    }
  }

  /** Scans `cs` in order for a candidate not in `used`. */
  method FirstFresh(cs: seq<string>, used: set<string>) returns (r: Option<string>)
    ensures r == FirstUnused(cs, used)
  {
    for i := 0 to |cs|
      invariant forall j :: 0 <= j < i ==> cs[j] in used
    {
      if cs[i] !in used {
        FirstUnusedIndexIs(cs, used, i);
        return Some(cs[i]);
      }
    }
    FirstUnusedIndexIs(cs, used, |cs|);
    r := None;
  }
}
