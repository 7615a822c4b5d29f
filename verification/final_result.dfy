/**
 The outcome resolver (`get_final_result`): an ordered decision table over
 the five traits and their sum, whose first matching row names the adult
 the child grows into.
 */
module FinalResult {
  import opened GameData

  /** The eight possible life outcomes. */
  datatype Outcome =
    | Leader         // 훌륭한 리더
    | CivilServant   // 모범적인 공무원
    | Artist         // 창의적인 예술가
    | Counselor      // 인기 많은 상담사
    | Researcher     // 지적인 연구원
    | FreeSpirit     // 행복한 자유인
    | Wanderer       // 방황하는 청년
    | OfficeWorker   // 평범한 직장인
  {
    /** The `job` text shown as the result title. */
    function Job(): string {
      match this
      case Leader => "훌륭한 리더"
      case CivilServant => "모범적인 공무원"
      case Artist => "창의적인 예술가"
      case Counselor => "인기 많은 상담사"
      case Researcher => "지적인 연구원"
      case FreeSpirit => "행복한 자유인"
      case Wanderer => "방황하는 청년"
      case OfficeWorker => "평범한 직장인"
    }

    /** The `description` text shown under the title. */
    function Description(): string {
      match this
      case Leader => "균형잡힌 성장을 한 멋진 어른이 되었어요! 🌟"
      case CivilServant => "책임감이 뛰어난 사회의 기둥이 되었네요! 🏛️"
      case Artist => "창의력이 넘치는 예술가가 되었어요! 🎨"
      case Counselor => "사람들과 잘 어울리는 따뜻한 어른이 되었네요! 🤝"
      case Researcher => "끊임없이 배우고 성장하는 학자가 되었어요! 📚"
      case FreeSpirit => "긍정적이고 밝은 에너지를 가진 사람이 되었네요! ☀️"
      case Wanderer => "아직 자신의 길을 찾아가는 중이에요. 더 많은 관심이 필요했을지도... 😔"
      case OfficeWorker => "무난하게 성장한 평범하지만 소중한 어른이 되었어요! 😊"
    }
  }

  /** The threshold a single trait must reach to decide the outcome. */
  const Standout: int := 80

  /** The rows of the decision table, in the order they are tried. */
  const Priority: seq<Outcome> :=
    [Leader, CivilServant, Artist, Counselor, Researcher, FreeSpirit, Wanderer, OfficeWorker]

  /** The row's own condition, regardless of the rows before it. */
  predicate Qualifies(o: Outcome, t: Traits) {
    match o
    case Leader => t.Total() >= 400
    case CivilServant => t.responsibility >= Standout
    case Artist => t.creativity >= Standout
    case Counselor => t.social >= Standout
    case Researcher => t.growth >= Standout
    case FreeSpirit => t.happiness >= Standout
    case Wanderer => t.Total() < 200
    case OfficeWorker => true
  }

  /** No single trait reaches the threshold. */
  predicate NoStandout(t: Traits) {
    && t.happiness < Standout && t.growth < Standout && t.social < Standout
    && t.creativity < Standout && t.responsibility < Standout
  }

  /** The position of an outcome's row in the table. */
  function Rank(o: Outcome): (k: nat)
    ensures k < |Priority| && Priority[k] == o
  {
    match o
    case Leader => 0
    case CivilServant => 1
    case Artist => 2
    case Counselor => 3
    case Researcher => 4
    case FreeSpirit => 5
    case Wanderer => 6
    case OfficeWorker => 7
  }

  /** The reference reading of an ordered table: the first of `rows` whose
      condition holds, or `OfficeWorker` when none does. */
  function FirstQualifying(rows: seq<Outcome>, t: Traits): Outcome {
    if |rows| == 0 then OfficeWorker
    else if Qualifies(rows[0], t) then rows[0]
    else FirstQualifying(rows[1..], t)
  }

  /** `get_final_result`: the outcome of a trait vector. Its row holds, no
      earlier row holds, and the sum and fallback rows are characterised in
      both directions. */
  function GetFinalResult(t: Traits): (r: Outcome)
    ensures Qualifies(r, t)
    ensures forall k :: 0 <= k < Rank(r) ==> !Qualifies(Priority[k], t)
    ensures r == Leader <==> t.Total() >= 400
    ensures r == Wanderer <==> t.Total() < 200 && NoStandout(t)
    ensures r == OfficeWorker <==> 200 <= t.Total() < 400 && NoStandout(t)
  {
    var total := t.Total();
    if total >= 400 then Leader
    else if t.responsibility >= Standout then CivilServant
    else if t.creativity >= Standout then Artist
    else if t.social >= Standout then Counselor
    else if t.growth >= Standout then Researcher
    else if t.happiness >= Standout then FreeSpirit
    else if total < 200 then Wanderer
    else OfficeWorker
  }

  /** The resolver is the first-match reading of the priority table. */
  lemma {:induction false} ResolverIsFirstMatch(t: Traits)
    ensures GetFinalResult(t) == FirstQualifying(Priority, t)
  {
    var r := GetFinalResult(t);
    FirstQualifyingPicksFirst(Priority, t, Rank(r));
  }

  /** If row `k` is the first whose condition holds, the first-match reading
      returns it. */
  lemma {:induction false} FirstQualifyingPicksFirst(rows: seq<Outcome>, t: Traits, k: nat)
    requires k < |rows| && Qualifies(rows[k], t)
    requires forall j :: 0 <= j < k ==> !Qualifies(rows[j], t)
    ensures FirstQualifying(rows, t) == rows[k]
    decreases k
  {
    if k > 0 {
      FirstQualifyingPicksFirst(rows[1..], t, k - 1);
    }
  }

  /** A sum of at least 400 wins, whatever the single traits are. */
  lemma HighTotalWins(t: Traits)
    requires t.Total() >= 400
    ensures GetFinalResult(t).Job() == "훌륭한 리더"
  {
  }

  /** Below 400, the single-trait rows fire in table order (responsibility,
      creativity, social, growth, happiness): the row of a trait that reaches
      80 wins when no trait whose row comes earlier does. */
  lemma TraitPriority(t: Traits, u: Trait)
    requires t.Total() < 400 && t.Get(u) >= Standout
    requires forall v: Trait :: Rank(SpecialistFor(v)) < Rank(SpecialistFor(u)) ==> t.Get(v) < Standout
    ensures GetFinalResult(t) == SpecialistFor(u)
  {
    var before := t.Get(Responsibility) < Standout && t.Get(Creativity) < Standout;
    match u
    case Responsibility =>
    case Creativity =>
      assert t.Get(Responsibility) < Standout;
    case Social =>
      assert before;
    case Growth =>
      assert before && t.Get(Social) < Standout;
    case Happiness =>
      assert before && t.Get(Social) < Standout && t.Get(Growth) < Standout;
  }

  /** The outcome of the single-trait row for `u`: the row whose condition
      is that `u` reaches the threshold. */
  function SpecialistFor(u: Trait): (o: Outcome)
    ensures forall t: Traits :: Qualifies(o, t) <==> t.Get(u) >= Standout
  {
    match u
    case Responsibility => CivilServant
    case Creativity => Artist
    case Social => Counselor
    case Growth => Researcher
    case Happiness => FreeSpirit
  }

  /** A sum of 400 needs a standout trait, so the leader row only ever
      shadows a single-trait row: without a standout the result is one of
      the two fallback rows. */
  lemma NoStandoutFallsBack(t: Traits)
    requires NoStandout(t)
    ensures t.Total() <= 395
    ensures GetFinalResult(t) in {Wanderer, OfficeWorker}
  {
  }

  /** The initial traits (70, 50, 60, 55, 45; sum 280) resolve to the
      ordinary office worker. */
  lemma InitialOutcome()
    ensures InitialTraits.Total() == 280
    ensures GetFinalResult(InitialTraits) == OfficeWorker
    ensures GetFinalResult(InitialTraits).Job() == "평범한 직장인"
  {
  }

  /** Happiness 90 with sum 230: the happiness row fires. */
  lemma HappyExample()
    ensures GetFinalResult(Traits(90, 50, 40, 30, 20)) == FreeSpirit
  {
  }
}
