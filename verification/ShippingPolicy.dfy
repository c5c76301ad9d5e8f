// Shipping policies: the declarative schema, the hand-written validator in front of it, and the two
// policy builders.
module ShippingPolicies {
  import opened Wrappers
  import opened Carriers
  import opened IntegerDigits

  /** A binary64 value: a real number, or one of NaN and the infinities. */
  datatype Num = Real(value: real) | NotFinite

  datatype Fallback = Allow | Block
  datatype OfferMode = CustomerChoice | EconomyOnly | ProtectedOnly
  datatype Insurance = Standard | Plus

  datatype Package = Package(
    weightKg: Num, lengthCm: Num, widthCm: Num, heightCm: Num, contents: Option<string>)

  /** None stands for an absent field, except that an absent carrier is `null`; a threshold may be
      absent, null or a number. */
  datatype Policy = Policy(
    revision: Option<Num>,
    preferredCarrier: Option<string>,
    fallbackPolicy: Fallback,
    offerMode: OfferMode,
    protectedInsurance: Insurance,
    allowedCarriers: Option<seq<string>>,
    excludedCarriers: Option<seq<string>>,
    orderedCarriers: Option<seq<string>>,
    insuranceThresholdCop: Option<Option<Num>>,
    packageDefaults: Option<Package>)

  /** String.prototype.trim and toLowerCase, left open. */
  datatype Text = Text(trim: string -> string, lower: string -> string) {
    function Normal(s: string): string { lower(trim(s)) }
    function NormalAll(list: seq<string>): seq<string> {
      seq(|list|, i requires 0 <= i < |list| => Normal(list[i]))
    }
  }

  // ---- The schema ------------------------------------------------------------------------------------

  predicate CarrierChar(c: char) {
    'a' <= c <= 'z' || '0' <= c <= '9' || c == '_' || c == '-'
  }

  /** /^[a-z0-9_-]{2,32}$/ */
  predicate CarrierPattern(c: string) {
    2 <= |c| <= 32 && forall i | 0 <= i < |c| :: CarrierChar(c[i])
  }

  predicate ValidCarrier(t: Text, c: string) { CarrierPattern(t.Normal(c)) }

  predicate ValidCarriers(t: Text, list: Option<seq<string>>, min: nat) {
    list.Some? ==> min <= |list.value| <= 5 && forall i | 0 <= i < |list.value| :: ValidCarrier(t, list.value[i])
  }

  predicate NonNegativeInteger(n: Num) {
    n.Real? && 0.0 <= n.value <= MAX_SAFE_INTEGER as real && n.value.Floor as real == n.value
  }

  predicate PositiveUpTo(n: Num, max: real) {
    n.Real? && 0.0 < n.value <= max
  }

  predicate ValidPackage(t: Text, p: Package) {
    && PositiveUpTo(p.weightKg, 100.0)
    && PositiveUpTo(p.lengthCm, 200.0) && PositiveUpTo(p.widthCm, 200.0) && PositiveUpTo(p.heightCm, 200.0)
    && (p.contents.Some? ==> 1 <= |t.trim(p.contents.value)| <= 200)
  }

  /** The fields that no carrier rule looks at. */
  predicate ValidRest(t: Text, p: Policy) {
    && (p.revision.Some? ==> NonNegativeInteger(p.revision.value))
    && (p.insuranceThresholdCop.Some? && p.insuranceThresholdCop.value.Some? ==>
          NonNegativeInteger(p.insuranceThresholdCop.value.value))
    && (p.packageDefaults.Some? ==> ValidPackage(t, p.packageDefaults.value))
  }

  /** The preferred carrier, if any, then the ordered ones. */
  function Candidates(preferred: Option<string>, ordered: seq<string>): seq<string> {
    (if preferred.Some? then [preferred.value] else []) + ordered
  }

  /** The second refinement, on carrier names as the schema has transformed them. */
  predicate Consistent(preferred: Option<string>, allowed: seq<string>, excluded: seq<string>, ordered: seq<string>) {
    && Distinct(allowed) && Distinct(excluded) && Distinct(ordered)
    && (forall c | c in allowed :: c !in excluded)
    && (forall c | c in Candidates(preferred, ordered) :: c !in excluded && (allowed == [] || c in allowed))
  }

  predicate SchemaAccepts(t: Text, p: Policy) {
    && ValidRest(t, p)
    && (p.preferredCarrier.Some? ==> ValidCarrier(t, p.preferredCarrier.value))
    && ValidCarriers(t, p.allowedCarriers, 1)
    && ValidCarriers(t, p.excludedCarriers, 0)
    && ValidCarriers(t, p.orderedCarriers, 0)
    && (p.fallbackPolicy.Block? ==> p.preferredCarrier.Some?)
    && Consistent(if p.preferredCarrier.Some? then Some(t.Normal(p.preferredCarrier.value)) else None,
                  t.NormalAll(OrEmpty(p.allowedCarriers)),
                  t.NormalAll(OrEmpty(p.excludedCarriers)),
                  t.NormalAll(OrEmpty(p.orderedCarriers)))
  }

  /** A number from 0 (not included) to the maximum. */
  ghost predicate Measures(n: Num, max: real) { exists x: real :: n == Real(x) && 0.0 < x <= max }

  /** A whole number from 0 to 2^53 - 1. */
  ghost predicate Counts(n: Num) {
    exists k: nat :: Is(n, k) && k < 0x20_0000_0000_0000
  }

  ghost predicate Is(n: Num, k: nat) { n == Real(k as real) }

  ghost predicate NameFits(t: Text, c: string) {
    var name := t.lower(t.trim(c));
    && 2 <= |name| <= 32
    && forall i | 0 <= i < |name| ::
         'a' <= name[i] <= 'z' || '0' <= name[i] <= '9' || name[i] == '_' || name[i] == '-'
  }

  /** At most five names, all fitting, no two the same once trimmed and lower-cased. */
  ghost predicate NamesFit(t: Text, list: seq<string>) {
    && |list| <= 5
    && (forall i | 0 <= i < |list| :: NameFits(t, list[i]))
    && forall i, j | 0 <= i < j < |list| :: t.Normal(list[i]) != t.Normal(list[j])
  }

  /** In one of the spellings that trimming and lower-casing make the same. */
  ghost predicate Names(t: Text, list: seq<string>, c: string) {
    exists i | 0 <= i < |list| :: t.Normal(list[i]) == t.Normal(c)
  }

  ghost predicate RestFits(t: Text, p: Policy) {
    && (p.revision.Some? ==> Counts(p.revision.value))
    && (p.insuranceThresholdCop.Some? && p.insuranceThresholdCop.value.Some? ==>
          Counts(p.insuranceThresholdCop.value.value))
    && (p.packageDefaults.Some? ==>
          var box := p.packageDefaults.value;
          && Measures(box.weightKg, 100.0) && Measures(box.lengthCm, 200.0)
          && Measures(box.widthCm, 200.0) && Measures(box.heightCm, 200.0)
          && (box.contents.Some? ==> 0 < |t.trim(box.contents.value)| < 201))
  }

  lemma NormalAllNames(t: Text, list: seq<string>, c: string)
    ensures t.Normal(c) in t.NormalAll(list) <==> Names(t, list, c)
  {
    if t.Normal(c) in t.NormalAll(list) {
      var i :| 0 <= i < |list| && t.NormalAll(list)[i] == t.Normal(c);
      assert t.Normal(list[i]) == t.Normal(c);
    }
    if i :| 0 <= i < |list| && t.Normal(list[i]) == t.Normal(c) {
      assert t.NormalAll(list)[i] == t.Normal(c);
    }
  }

  lemma CountsIff(n: Num)
    ensures NonNegativeInteger(n) <==> Counts(n)
  {
    if NonNegativeInteger(n) {
      assert Is(n, n.value.Floor);
    }
    if Counts(n) {
      var k: nat :| Is(n, k) && k < 0x20_0000_0000_0000;
      assert n.value.Floor == k;
    }
  }

  lemma RestFitsIff(t: Text, p: Policy)
    ensures ValidRest(t, p) <==> RestFits(t, p)
  {
    if p.revision.Some? {
      CountsIff(p.revision.value);
    }
    if p.insuranceThresholdCop.Some? && p.insuranceThresholdCop.value.Some? {
      CountsIff(p.insuranceThresholdCop.value.value);
    }
  }

  lemma NamesFitIff(t: Text, list: Option<seq<string>>, min: nat)
    ensures ValidCarriers(t, list, min) && Distinct(t.NormalAll(OrEmpty(list))) <==>
            NamesFit(t, OrEmpty(list)) && (list.Some? ==> min <= |list.value|)
  {
    var names := OrEmpty(list);
    assert forall i | 0 <= i < |names| :: ValidCarrier(t, names[i]) <==> NameFits(t, names[i]);
    assert forall i | 0 <= i < |names| :: t.NormalAll(names)[i] == t.Normal(names[i]);
  }

  /** No name of one list is a name of the other. */
  lemma ApartIff(t: Text, list: seq<string>, other: seq<string>)
    ensures (forall c | c in t.NormalAll(list) :: c !in t.NormalAll(other)) <==>
            forall i | 0 <= i < |list| :: !Names(t, other, list[i])
  {
    forall i | 0 <= i < |list| ensures t.Normal(list[i]) in t.NormalAll(other) <==> Names(t, other, list[i]) {
      NormalAllNames(t, other, list[i]);
    }
    forall i | 0 <= i < |list|
      ensures t.NormalAll(list)[i] == t.Normal(list[i]) && t.Normal(list[i]) in t.NormalAll(list)
    {
      assert t.NormalAll(list)[i] in t.NormalAll(list);
    }
  }

  /** Not excluded, and allowed if a list says who is. */
  ghost predicate MayCarry(t: Text, p: Policy, c: string) {
    !Names(t, OrEmpty(p.excludedCarriers), c) && (p.allowedCarriers.Some? ==> Names(t, p.allowedCarriers.value, c))
  }

  ghost predicate CandidateOk(t: Text, p: Policy, c: string) {
    && t.Normal(c) !in t.NormalAll(OrEmpty(p.excludedCarriers))
    && (t.NormalAll(OrEmpty(p.allowedCarriers)) == [] || t.Normal(c) in t.NormalAll(OrEmpty(p.allowedCarriers)))
  }

  lemma MayCarryIff(t: Text, p: Policy, c: string)
    requires p.allowedCarriers != Some([])
    ensures CandidateOk(t, p, c) <==> MayCarry(t, p, c)
  {
    NormalAllNames(t, OrEmpty(p.excludedCarriers), c);
    NormalAllNames(t, OrEmpty(p.allowedCarriers), c);
    assert p.allowedCarriers.Some? ==> |t.NormalAll(p.allowedCarriers.value)| > 0;
  }

  lemma CandidatesAre(t: Text, p: Policy)
    ensures var preferred := if p.preferredCarrier.Some? then Some(t.Normal(p.preferredCarrier.value)) else None;
            var ordered := OrEmpty(p.orderedCarriers);
            (forall c | c in Candidates(preferred, t.NormalAll(ordered)) ::
               && c !in t.NormalAll(OrEmpty(p.excludedCarriers))
               && (t.NormalAll(OrEmpty(p.allowedCarriers)) == [] || c in t.NormalAll(OrEmpty(p.allowedCarriers))))
            <==>
            && (p.preferredCarrier.Some? ==> CandidateOk(t, p, p.preferredCarrier.value))
            && forall i | 0 <= i < |ordered| :: CandidateOk(t, p, ordered[i])
  {
    var preferred := if p.preferredCarrier.Some? then Some(t.Normal(p.preferredCarrier.value)) else None;
    var ordered := OrEmpty(p.orderedCarriers);
    var candidates := Candidates(preferred, t.NormalAll(ordered));
    assert p.preferredCarrier.Some? ==>
        candidates[0] == t.Normal(p.preferredCarrier.value) && candidates[0] in candidates;
    var first := if p.preferredCarrier.Some? then 1 else 0;
    forall i | 0 <= i < |ordered| ensures t.Normal(ordered[i]) in candidates {
      assert candidates[first + i] == t.NormalAll(ordered)[i] == t.Normal(ordered[i]);
    }
    forall c | c in candidates
      ensures (p.preferredCarrier.Some? && c == t.Normal(p.preferredCarrier.value))
              || exists i | 0 <= i < |ordered| :: c == t.Normal(ordered[i])
    {
      var k :| 0 <= k < |candidates| && candidates[k] == c;
      assert k >= first ==> c == t.Normal(ordered[k - first]);
    }
  }

  /** The carriers that are to carry may, and no allowed one is excluded. */
  ghost predicate ListsAgree(t: Text, p: Policy) {
    var allowed, excluded, ordered :=
      OrEmpty(p.allowedCarriers), OrEmpty(p.excludedCarriers), OrEmpty(p.orderedCarriers);
    && (forall i | 0 <= i < |allowed| :: !Names(t, excluded, allowed[i]))
    && (p.preferredCarrier.Some? ==> MayCarry(t, p, p.preferredCarrier.value))
    && (forall i | 0 <= i < |ordered| :: MayCarry(t, p, ordered[i]))
  }

  lemma ConsistentIff(t: Text, p: Policy)
    requires p.allowedCarriers != Some([])
    ensures var preferred := if p.preferredCarrier.Some? then Some(t.Normal(p.preferredCarrier.value)) else None;
            var allowed, excluded, ordered := t.NormalAll(OrEmpty(p.allowedCarriers)),
              t.NormalAll(OrEmpty(p.excludedCarriers)), t.NormalAll(OrEmpty(p.orderedCarriers));
            Consistent(preferred, allowed, excluded, ordered) <==>
            Distinct(allowed) && Distinct(excluded) && Distinct(ordered) && ListsAgree(t, p)
  {
    ApartIff(t, OrEmpty(p.allowedCarriers), OrEmpty(p.excludedCarriers));
    CandidatesAre(t, p);
    forall c: string ensures CandidateOk(t, p, c) <==> MayCarry(t, p, c) {
      MayCarryIff(t, p, c);
    }
  }

  /** A policy is accepted exactly when its names and numbers fit; no list, once its names are trimmed and
      lower-cased, has one twice; an allowed list is not empty and shares no name with the excluded one;
      the preferred and the ordered carriers may all carry; and a blocked fallback has a preferred one. */
  lemma AcceptedIff(t: Text, p: Policy)
    ensures SchemaAccepts(t, p) <==>
            var allowed, excluded, ordered :=
              OrEmpty(p.allowedCarriers), OrEmpty(p.excludedCarriers), OrEmpty(p.orderedCarriers);
            && RestFits(t, p) && p.allowedCarriers != Some([])
            && NamesFit(t, allowed) && NamesFit(t, excluded) && NamesFit(t, ordered)
            && (p.preferredCarrier.Some? ==> NameFits(t, p.preferredCarrier.value))
            && (p.fallbackPolicy == Block ==> p.preferredCarrier != None)
            && ListsAgree(t, p)
  {
    RestFitsIff(t, p);
    NamesFitIff(t, p.allowedCarriers, 1);
    NamesFitIff(t, p.excludedCarriers, 0);
    NamesFitIff(t, p.orderedCarriers, 0);
    if p.allowedCarriers != Some([]) {
      ConsistentIff(t, p);
    }
  }

  // ---- The hand-written validator ------------------------------------------------------------------------

  datatype Message =
    | NoneAllowed
    | PreferredExcluded(carrier: string) | PreferredNotAllowed(carrier: string)
    | SecondaryExcluded(carrier: string) | SecondaryNotAllowed(carrier: string)
    | SchemaIssue

  function FirstSecondaryProblem(
    ordered: seq<string>, allowed: Option<seq<string>>, excluded: seq<string>): Option<Message>
  {
    if ordered == [] then None
    else if ordered[0] in excluded then Some(SecondaryExcluded(ordered[0]))
    else if allowed.Some? && ordered[0] !in allowed.value then Some(SecondaryNotAllowed(ordered[0]))
    else FirstSecondaryProblem(ordered[1..], allowed, excluded)
  }

  function PolicyValidationMessage(t: Text, p: Policy): Option<Message> {
    var allowed, excluded := p.allowedCarriers, OrEmpty(p.excludedCarriers);
    // An empty string is falsy, like null.
    var preferred := if p.preferredCarrier == Some("") then None else p.preferredCarrier;
    if allowed == Some([]) then Some(NoneAllowed)
    else if preferred.Some? && preferred.value in excluded then Some(PreferredExcluded(preferred.value))
    else if preferred.Some? && allowed.Some? && preferred.value !in allowed.value then
      Some(PreferredNotAllowed(preferred.value))
    else
      var secondary := FirstSecondaryProblem(OrEmpty(p.orderedCarriers), allowed, excluded);
      if secondary.Some? then secondary
      else if SchemaAccepts(t, p) then None
      else Some(SchemaIssue)
  }

  ghost predicate NormalCarriers(t: Text, p: Policy) {
    && (p.preferredCarrier.Some? ==> t.Normal(p.preferredCarrier.value) == p.preferredCarrier.value)
    && (forall c | c in OrEmpty(p.allowedCarriers) :: t.Normal(c) == c)
    && (forall c | c in OrEmpty(p.excludedCarriers) :: t.Normal(c) == c)
    && (forall c | c in OrEmpty(p.orderedCarriers) :: t.Normal(c) == c)
  }

  lemma {:induction false} SecondaryProblemIff(
    ordered: seq<string>, allowed: Option<seq<string>>, excluded: seq<string>)
    ensures FirstSecondaryProblem(ordered, allowed, excluded).None? <==>
            forall c | c in ordered :: c !in excluded && (allowed.Some? ==> c in allowed.value)
  {
    if ordered == [] {
    } else {
      SecondaryProblemIff(ordered[1..], allowed, excluded);
      assert forall c :: c in ordered <==> c == ordered[0] || c in ordered[1..];
    }
  }

  lemma NormalAllHas(t: Text, list: seq<string>, c: string)
    requires c in list
    ensures t.Normal(c) in t.NormalAll(list)
  {
    var i :| 0 <= i < |list| && list[i] == c;
    assert t.NormalAll(list)[i] == t.Normal(c);
  }

  /** Every candidate is spelled in the allowed list, if there is one, just as it is itself. */
  ghost predicate CandidatesListed(p: Policy) {
    p.allowedCarriers.Some? ==>
      forall c | c in Candidates(p.preferredCarrier, OrEmpty(p.orderedCarriers)) :: c in p.allowedCarriers.value
  }

  lemma AcceptedCandidatesNotExcluded(t: Text, p: Policy, c: string)
    requires SchemaAccepts(t, p) && c in Candidates(p.preferredCarrier, OrEmpty(p.orderedCarriers))
    ensures c !in OrEmpty(p.excludedCarriers)
  {
    var excluded, ordered := OrEmpty(p.excludedCarriers), OrEmpty(p.orderedCarriers);
    if c in excluded {
      NormalAllHas(t, excluded, c);
      if c in ordered {
        NormalAllHas(t, ordered, c);
      }
    }
  }

  /** The validator is silent exactly when the schema accepts and every candidate appears in the allowed
      list spelled the same way: names that differ only in case or blanks pass the schema alone. */
  lemma SilentExactlyWhenAccepted(t: Text, p: Policy)
    requires t.Normal("") == ""
    ensures PolicyValidationMessage(t, p).None? <==> SchemaAccepts(t, p) && CandidatesListed(p)
  {
    var excluded, ordered := OrEmpty(p.excludedCarriers), OrEmpty(p.orderedCarriers);
    var candidates := Candidates(p.preferredCarrier, ordered);
    SecondaryProblemIff(ordered, p.allowedCarriers, excluded);
    assert forall c | c in ordered :: c in candidates;
    assert p.preferredCarrier.Some? ==> candidates[0] == p.preferredCarrier.value && candidates[0] in candidates;
    assert forall c | c in candidates :: c in ordered || p.preferredCarrier == Some(c);
    if SchemaAccepts(t, p) {
      forall c | c in candidates ensures c !in excluded {
        AcceptedCandidatesNotExcluded(t, p, c);
      }
    }
  }

  /** A complaint about a carrier names one that is preferred and really excluded, or really missing
      from the allowed list. */
  lemma ComplaintsAreTrue(t: Text, p: Policy)
    ensures match PolicyValidationMessage(t, p)
            case None => true
            case Some(NoneAllowed) => p.allowedCarriers == Some([])
            case Some(PreferredExcluded(c)) => p.preferredCarrier == Some(c) && c in OrEmpty(p.excludedCarriers)
            case Some(PreferredNotAllowed(c)) =>
              p.preferredCarrier == Some(c) && p.allowedCarriers.Some? && c !in p.allowedCarriers.value
            case Some(SecondaryExcluded(c)) => c in OrEmpty(p.orderedCarriers) && c in OrEmpty(p.excludedCarriers)
            case Some(SecondaryNotAllowed(c)) =>
              c in OrEmpty(p.orderedCarriers) && p.allowedCarriers.Some? && c !in p.allowedCarriers.value
            case Some(SchemaIssue) => !SchemaAccepts(t, p)
  {
    SecondaryComplaintIsTrue(OrEmpty(p.orderedCarriers), p.allowedCarriers, OrEmpty(p.excludedCarriers));
  }

  lemma {:induction false} SecondaryComplaintIsTrue(
    ordered: seq<string>, allowed: Option<seq<string>>, excluded: seq<string>)
    ensures match FirstSecondaryProblem(ordered, allowed, excluded)
            case None => true
            case Some(SecondaryExcluded(c)) => c in ordered && c in excluded
            case Some(SecondaryNotAllowed(c)) => c in ordered && allowed.Some? && c !in allowed.value
            case Some(_) => false
  {
    if ordered == [] {
    } else {
      SecondaryComplaintIsTrue(ordered[1..], allowed, excluded);
    }
  }

  /** Spelled as it is: not excluded, and allowed if a list says who is. */
  predicate ListedWell(p: Policy, c: string) {
    c !in OrEmpty(p.excludedCarriers) && (p.allowedCarriers.Some? ==> c in p.allowedCarriers.value)
  }

  /** The first of the ordered carriers that is not. */
  ghost predicate FirstFault(p: Policy, c: string) {
    var ordered := OrEmpty(p.orderedCarriers);
    exists i | 0 <= i < |ordered| ::
      ordered[i] == c && !ListedWell(p, c) && forall j | 0 <= j < i :: ListedWell(p, ordered[j])
  }

  lemma {:induction false} FirstSecondaryProblemIs(
    ordered: seq<string>, p: Policy, c: string)
    ensures var problem := FirstSecondaryProblem(ordered, p.allowedCarriers, OrEmpty(p.excludedCarriers));
            (problem == Some(if c in OrEmpty(p.excludedCarriers) then SecondaryExcluded(c) else SecondaryNotAllowed(c)))
            <==>
            exists i | 0 <= i < |ordered| ::
              ordered[i] == c && !ListedWell(p, c) && forall j | 0 <= j < i :: ListedWell(p, ordered[j])
    ensures var problem := FirstSecondaryProblem(ordered, p.allowedCarriers, OrEmpty(p.excludedCarriers));
            problem == Some(SecondaryNotAllowed(c)) ==> c !in OrEmpty(p.excludedCarriers)
  {
    if ordered == [] {
    } else {
      var rest := ordered[1..];
      FirstSecondaryProblemIs(rest, p, c);
      if i :| 0 <= i < |rest| && rest[i] == c && !ListedWell(p, c) && forall j | 0 <= j < i :: ListedWell(p, rest[j]) {
        if ListedWell(p, ordered[0]) {
          assert ordered[i + 1] == c && forall j | 0 <= j < i + 1 :: j > 0 ==> ordered[j] == rest[j - 1];
        }
      }
      if i :| 0 <= i < |ordered| && ordered[i] == c && !ListedWell(p, c) &&
              forall j | 0 <= j < i :: ListedWell(p, ordered[j])
      {
        assert i > 0 ==> rest[i - 1] == c && forall j | 0 <= j < i - 1 :: rest[j] == ordered[j + 1];
      }
    }
  }

  /** Which message is given: the first fault in this order, an empty allowed list, the preferred carrier,
      the first faulty ordered carrier, what else the schema refuses. */
  lemma FirstFaultIsReported(t: Text, p: Policy, c: string)
    ensures var message := PolicyValidationMessage(t, p);
            var excluded := OrEmpty(p.excludedCarriers);
            var preferredWell := p.preferredCarrier == None || p.preferredCarrier == Some("")
                                 || ListedWell(p, p.preferredCarrier.value);
            && (message == Some(NoneAllowed) <==> p.allowedCarriers == Some([]))
            && (p.allowedCarriers != Some([]) ==>
                  && (message == Some(PreferredExcluded(c)) <==>
                      p.preferredCarrier == Some(c) && c != "" && c in excluded)
                  && (message == Some(PreferredNotAllowed(c)) <==>
                      p.preferredCarrier == Some(c) && c != "" && c !in excluded && !ListedWell(p, c))
                  && (message == Some(SecondaryExcluded(c)) <==> preferredWell && FirstFault(p, c) && c in excluded)
                  && (message == Some(SecondaryNotAllowed(c)) <==> preferredWell && FirstFault(p, c) && c !in excluded)
                  && (message == Some(SchemaIssue) <==>
                      preferredWell && !SchemaAccepts(t, p)
                      && forall d | d in OrEmpty(p.orderedCarriers) :: ListedWell(p, d)))
  {
    FirstSecondaryProblemIs(OrEmpty(p.orderedCarriers), p, c);
    SecondaryProblemIff(OrEmpty(p.orderedCarriers), p.allowedCarriers, OrEmpty(p.excludedCarriers));
    SecondaryComplaintIsTrue(OrEmpty(p.orderedCarriers), p.allowedCarriers, OrEmpty(p.excludedCarriers));
  }

  /** The carriers a policy lets a shipment use. */
  ghost predicate Usable(t: Text, p: Policy, c: string) {
    && c !in t.NormalAll(OrEmpty(p.excludedCarriers))
    && (p.allowedCarriers.Some? ==> c in t.NormalAll(p.allowedCarriers.value))
  }

  /** Every carrier an accepted policy prefers is usable under it; a blocked fallback has one to fall
      back on, and an allowed list leaves at least one usable carrier. */
  lemma AcceptedPolicyIsWorkable(t: Text, p: Policy)
    requires SchemaAccepts(t, p)
    ensures forall c | c in Candidates(p.preferredCarrier, OrEmpty(p.orderedCarriers)) :: Usable(t, p, t.Normal(c))
    ensures p.fallbackPolicy.Block? ==> p.preferredCarrier.Some?
    ensures p.allowedCarriers.Some? ==> exists c :: Usable(t, p, c)
  {
    var allowed, ordered := OrEmpty(p.allowedCarriers), OrEmpty(p.orderedCarriers);
    assert p.allowedCarriers.Some? ==> t.NormalAll(allowed) != [];
    forall c | c in Candidates(p.preferredCarrier, ordered) ensures Usable(t, p, t.Normal(c)) {
      if c in ordered {
        NormalAllHas(t, ordered, c);
      }
    }
    if p.allowedCarriers.Some? {
      NormalAllHas(t, allowed, allowed[0]);
      assert Usable(t, p, t.Normal(allowed[0]));
    }
  }

  lemma NormalAllOfNormal(t: Text, list: seq<string>)
    requires forall c | c in list :: t.Normal(c) == c
    ensures t.NormalAll(list) == list
  {}

  /** On policies whose carrier names are already trimmed and lower case the two agree. */
  lemma ValidatorAgreesOnNormalNames(t: Text, p: Policy)
    requires t.Normal("") == "" && NormalCarriers(t, p)
    ensures PolicyValidationMessage(t, p).None? <==> SchemaAccepts(t, p)
  {
    SilentExactlyWhenAccepted(t, p);
    NormalAllOfNormal(t, OrEmpty(p.allowedCarriers));
    NormalAllOfNormal(t, OrEmpty(p.orderedCarriers));
    if SchemaAccepts(t, p) && p.allowedCarriers.Some? {
      assert Candidates(if p.preferredCarrier.Some? then Some(t.Normal(p.preferredCarrier.value)) else None,
                        t.NormalAll(OrEmpty(p.orderedCarriers))) ==
             Candidates(p.preferredCarrier, OrEmpty(p.orderedCarriers));
    }
  }

  /** Off them it does not: the schema accepts "TCC" where "tcc" is allowed, the validator objects. */
  lemma ValidatorIsStricterOnOtherSpellings(t: Text)
    requires t.Normal("TCC") == t.Normal("tcc") == "tcc"
    ensures var p := Policy(None, Some("TCC"), Allow, CustomerChoice, Standard, Some(["tcc"]), None, None, None, None);
            SchemaAccepts(t, p) && PolicyValidationMessage(t, p) == Some(PreferredNotAllowed("TCC"))
  {
    var p := Policy(None, Some("TCC"), Allow, CustomerChoice, Standard, Some(["tcc"]), None, None, None, None);
    assert CarrierPattern("tcc");
    assert t.NormalAll(["tcc"]) == ["tcc"] && t.NormalAll([]) == [];
    assert "TCC"[0] != "tcc"[0];
  }

  // ---- Building policies -----------------------------------------------------------------------------------

  function RestrictToCarrier(p: Policy, carrier: string): Policy {
    p.(preferredCarrier := Some(carrier), fallbackPolicy := Block,
       allowedCarriers := Some([carrier]), excludedCarriers := None, orderedCarriers := Some([]))
  }

  /** A restricted policy is accepted, by schema and validator alike and whatever it was before, exactly
      when the carrier's name is valid and the fields no carrier rule looks at are; restricting again
      leaves nothing of the first carrier. */
  lemma RestrictedPolicyAccepted(t: Text, p: Policy, carrier: string, earlier: string)
    requires t.Normal("") == ""
    ensures SchemaAccepts(t, RestrictToCarrier(p, carrier)) <==> ValidCarrier(t, carrier) && ValidRest(t, p)
    ensures PolicyValidationMessage(t, RestrictToCarrier(p, carrier)).None? <==>
            SchemaAccepts(t, RestrictToCarrier(p, carrier))
    ensures RestrictToCarrier(RestrictToCarrier(p, earlier), carrier) == RestrictToCarrier(p, carrier)
    ensures var r := RestrictToCarrier(p, carrier);
            && (forall c :: Usable(t, r, c) <==> c == t.Normal(carrier))
            && r.preferredCarrier == Some(carrier) && r.fallbackPolicy == Block
            && r.revision == p.revision && r.offerMode == p.offerMode && r.protectedInsurance == p.protectedInsurance
            && r.insuranceThresholdCop == p.insuranceThresholdCop && r.packageDefaults == p.packageDefaults
  {
    var r := RestrictToCarrier(p, carrier);
    assert t.NormalAll([carrier]) == [t.Normal(carrier)] && t.NormalAll([]) == [];
    assert Candidates(Some(t.Normal(carrier)), []) == [t.Normal(carrier)];
    SilentExactlyWhenAccepted(t, r);
    assert Candidates(r.preferredCarrier, OrEmpty(r.orderedCarriers)) == [carrier];
  }

  function CopyGlobal(p: Policy, revision: Num): Policy {
    p.(revision := Some(revision))
  }

  /** The municipal copy of a policy is accepted exactly when its revision is valid and the policy is
      acceptable apart from its own revision; so a copy of an accepted policy is accepted. */
  lemma CopyKeepsAcceptance(t: Text, p: Policy, revision: Num)
    ensures SchemaAccepts(t, CopyGlobal(p, revision)) <==>
            NonNegativeInteger(revision) && SchemaAccepts(t, p.(revision := None))
    ensures SchemaAccepts(t, p) && NonNegativeInteger(revision) ==>
              SchemaAccepts(t, CopyGlobal(p, revision)) &&
              PolicyValidationMessage(t, CopyGlobal(p, revision)) == PolicyValidationMessage(t, p)
    ensures CopyGlobal(p, revision).revision == Some(revision)
    ensures CopyGlobal(p, revision).(revision := p.revision) == p
  {
    var q, bare := CopyGlobal(p, revision), p.(revision := None);
    assert ValidRest(t, q) <==> NonNegativeInteger(revision) && ValidRest(t, bare);
    assert ValidRest(t, p) ==> ValidRest(t, bare);
  }

  /** A package record on the heap. */
  class PackageRecord {
    var fields: Package

    constructor (fields: Package)
      ensures this.fields == fields
    {
      this.fields := fields;
    }
  }

  /** A policy on the heap, its lists and its package being objects of their own. */
  class PolicyRecord {
    var scalars: Policy  // the fields that are not objects; its list and package fields are unused
    var allowedCarriers: array?<string>
    var excludedCarriers: array?<string>
    var orderedCarriers: array?<string>
    var packageDefaults: PackageRecord?

    constructor (scalars: Policy, allowed: array?<string>, excluded: array?<string>, ordered: array?<string>,
                 package: PackageRecord?)
      ensures this.scalars == scalars && this.packageDefaults == package
      ensures allowedCarriers == allowed && excludedCarriers == excluded && orderedCarriers == ordered
    {
      this.scalars, packageDefaults := scalars, package;
      allowedCarriers, excludedCarriers, orderedCarriers := allowed, excluded, ordered;
    }

    ghost function View(): Policy
      reads this, allowedCarriers, excludedCarriers, orderedCarriers, packageDefaults
    {
      scalars.(
        allowedCarriers := if allowedCarriers == null then None else Some(allowedCarriers[..]),
        excludedCarriers := if excludedCarriers == null then None else Some(excludedCarriers[..]),
        orderedCarriers := if orderedCarriers == null then None else Some(orderedCarriers[..]),
        packageDefaults := if packageDefaults == null then None else Some(packageDefaults.fields))
    }
  }

  method CopyList(list: array?<string>) returns (copy: array?<string>)
    ensures copy == null <==> list == null
    ensures copy != null ==> fresh(copy) && copy[..] == list[..]
  {
    if list == null {
      return null;
    }
    copy := new string[list.Length](i requires 0 <= i < list.Length reads list => list[i]);
  }

  /** The copy says what the original says, under the new revision, and shares no object with it. */
  method CopyGlobalForMunicipality(policy: PolicyRecord, revision: Num) returns (copy: PolicyRecord)
    ensures fresh(copy) && copy.View() == CopyGlobal(policy.View(), revision)
    ensures copy.allowedCarriers != null ==> fresh(copy.allowedCarriers)
    ensures copy.excludedCarriers != null ==> fresh(copy.excludedCarriers)
    ensures copy.orderedCarriers != null ==> fresh(copy.orderedCarriers)
    ensures copy.packageDefaults != null ==> fresh(copy.packageDefaults)
  {
    var allowed := CopyList(policy.allowedCarriers);
    var excluded := CopyList(policy.excludedCarriers);
    var ordered := CopyList(policy.orderedCarriers);
    var package: PackageRecord? := null;
    if policy.packageDefaults != null {
      package := new PackageRecord(policy.packageDefaults.fields);
    }
    copy := new PolicyRecord(policy.scalars.(revision := Some(revision)), allowed, excluded, ordered, package);
  }
}
