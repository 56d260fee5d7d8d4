/**
  The language-code tables of the translator, the policy that decides which
  translation engines run for a (detected source, chosen destination) pair,
  and the name of the MarianMT model loaded for a pair.
 */
module Languages {
  import opened Wrappers

  /** Codes the NLLB model expects, keyed by the ISO code the detector returns. */
  const NllbCodes: map<string, string> :=
    map["en" := "eng_Latn", "fr" := "fra_Latn", "ar" := "arb_Arab"]

  /** Codes the MarianMT model names use, keyed the same way. */
  const MarianCodes: map<string, string> :=
    map["en" := "en", "fr" := "fr", "ar" := "ar"]

  /**
    Python's `dict.get` read through truthiness: a missing key yields a
    falsy value, written here as the empty string.
   */
  function Get(m: map<string, string>, key: string): string
  {
    if key in m then m[key] else ""
  }

  /** The two translation engines; MarianMT is the pairwise one, NLLB the broad one. */
  datatype Engine = MarianMT | NLLB

  /** The label an engine carries in the radio control and in the saved `Model` column. */
  function Label(e: Engine): (s: string)
    ensures s == "MarianMT" || s == "NLLB"
  {
    match e
    case MarianMT => "MarianMT"
    case NLLB => "NLLB"
  }

  lemma LabelInjective(e1: Engine, e2: Engine)
    ensures Label(e1) == Label(e2) <==> e1 == e2
  {
  }

  /** A pair the application can translate: both codes are known and differ. */
  predicate Translatable(src: string, dst: string)
  {
    src in NllbCodes && dst in NllbCodes && src != dst
  }

  /**
    The engines the "Traduire" action runs, in the order it runs them.
    MarianMT serves exactly the translatable pairs whose destination is not
    English; NLLB serves every English destination and is added as a second
    opinion after MarianMT for fr->ar and en->fr.
   */
  function SelectEngines(src: string, dst: string): (r: seq<Engine>)
    ensures r != [] <==> Translatable(src, dst)
    ensures MarianMT in r <==> Translatable(src, dst) && dst != "en"
    ensures NLLB in r <==> (Translatable(src, dst) && dst == "en")
                           || (src, dst) == ("fr", "ar") || (src, dst) == ("en", "fr")
    ensures |r| <= 2 && (|r| == 2 ==> r == [MarianMT, NLLB])
    ensures forall i, j :: 0 <= i < j < |r| ==> r[i] != r[j]
  {
    if src == "ar" && dst == "fr" then [MarianMT]
    else if src == "ar" && dst == "en" then [NLLB]
    else if src == "fr" && dst == "ar" then [MarianMT, NLLB]
    else if src == "fr" && dst == "en" then [NLLB]
    else if src == "en" && dst == "fr" then [MarianMT, NLLB]
    else if src == "en" && dst == "ar" then [MarianMT]
    else []
  }

  /** The dispatch table row by row. */
  lemma SelectEnginesTable()
    ensures SelectEngines("ar", "fr") == [MarianMT]
    ensures SelectEngines("ar", "en") == [NLLB]
    ensures SelectEngines("fr", "ar") == [MarianMT, NLLB]
    ensures SelectEngines("fr", "en") == [NLLB]
    ensures SelectEngines("en", "fr") == [MarianMT, NLLB]
    ensures SelectEngines("en", "ar") == [MarianMT]
    ensures forall c :: SelectEngines(c, c) == []
  {
  }

  const MarianPrefix: string := "Helsinki-NLP/opus-mt-"


  /** Index of the first '-' in `s`, or |s| when there is none. */
  function DashIndex(s: string): (i: nat)
    ensures i <= |s|
    ensures forall j :: 0 <= j < i ==> s[j] != '-'
    ensures i < |s| ==> s[i] == '-'
  {
    if s == [] || s[0] == '-' then 0 else 1 + DashIndex(s[1..])
  }

  lemma DashIndexOfJoin(s: string, d: string)
    requires '-' !in s
    ensures DashIndex(s + "-" + d) == |s|
  {
    var t := s + "-" + d;
    assert t[|s|] == '-';
    assert forall j :: 0 <= j < |s| ==> t[j] == s[j];
  }

  /** Splits a MarianMT model name back into its source and destination codes. */
  function ParseMarianModelName(name: string): (r: Option<(string, string)>)
    ensures r.Some? ==> '-' !in r.value.0
  {
    if |name| < |MarianPrefix| || name[..|MarianPrefix|] != MarianPrefix then None
    else
      var rest := name[|MarianPrefix|..];
      var k := DashIndex(rest);
      if k == |rest| then None
      else
        assert forall c :: c in rest[..k] ==> c != '-';
        Some((rest[..k], rest[k + 1..]))
  }

  /**
    The hub name of the MarianMT model for a pair of Marian codes. As long as
    the source code has no dash, the name parses back to the pair it was built
    from, so the name determines the pair.
   */
  function MarianModelName(src: string, dst: string): (name: string)
    ensures '-' !in src ==> ParseMarianModelName(name) == Some((src, dst))
  {
    var name := MarianPrefix + src + "-" + dst;
    if '-' in src then name
    else
      var rest := name[|MarianPrefix|..];
      assert rest == src + "-" + dst;
      DashIndexOfJoin(src, dst);
      assert rest[..|src|] == src;
      assert rest[|src| + 1..] == dst;
      name
  }

  /**
    Distinct pairs of codes from the Marian table name distinct hub models.
   */
  lemma {:induction false} MarianModelNameInjective(s1: string, d1: string, s2: string, d2: string)
    requires s1 in MarianCodes.Values && s2 in MarianCodes.Values
    ensures MarianModelName(s1, d1) == MarianModelName(s2, d2) <==> s1 == s2 && d1 == d2
  {
    // Follows from the round trip in MarianModelName's contract.
  }

  /** Both tables cover the same three languages, and the Marian codes are the ISO codes themselves. */
  lemma CodeTables()
    ensures NllbCodes.Keys == MarianCodes.Keys == {"en", "fr", "ar"}
    ensures forall k :: k in MarianCodes ==> MarianCodes[k] == k && NllbCodes[k] != ""
  {
  }
}
