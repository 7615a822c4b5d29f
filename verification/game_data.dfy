/**
 The data of the parenting simulation: the five character traits, the game
 state record, the fixed scenario catalog and the initial state.
 */
module GameData {

  /** The conventional Some/None datatype, used for the session's
      "current situation", which is absent right after a reset. */
  datatype Option<+T> = None | Some(value: T)

  /** The five bounded character traits. */
  datatype Trait = Happiness | Growth | Social | Creativity | Responsibility {

    /** The key under which the trait is stored in the game state and named
        in an analysis' effects. */
    function Name(): string {
      match this
      case Happiness => "happiness"
      case Growth => "growth"
      case Social => "social"
      case Creativity => "creativity"
      case Responsibility => "responsibility"
    }
  }

  /** The trait stored under `key`, if any. */
  function TraitNamed(key: string): (r: Option<Trait>)
    ensures r.Some? ==> r.value.Name() == key
    ensures r.None? ==> forall t: Trait :: t.Name() != key
  {
    if key == "happiness" then Some(Happiness)
    else if key == "growth" then Some(Growth)
    else if key == "social" then Some(Social)
    else if key == "creativity" then Some(Creativity)
    else if key == "responsibility" then Some(Responsibility)
    else None
  }

  /** The trait scores of the child. */
  datatype Traits = Traits(happiness: int, growth: int, social: int, creativity: int, responsibility: int) {

    function Get(t: Trait): int {
      match t
      case Happiness => happiness
      case Growth => growth
      case Social => social
      case Creativity => creativity
      case Responsibility => responsibility
    }

    function Set(t: Trait, v: int): (r: Traits)
      ensures r.Get(t) == v
      ensures forall u: Trait :: u != t ==> r.Get(u) == Get(u)
    {
      match t
      case Happiness => this.(happiness := v)
      case Growth => this.(growth := v)
      case Social => this.(social := v)
      case Creativity => this.(creativity := v)
      case Responsibility => this.(responsibility := v)
    }

    /** The sum the final result is judged on. */
    function Total(): int {
      happiness + growth + social + creativity + responsibility
    }
  }

  /** Every trait lies in [0, 100]. */
  predicate InRange(t: Traits) {
    forall u: Trait :: 0 <= t.Get(u) <= 100
  }

  /** `game_phase`: "playing" until eight rounds are done, then "result". */
  datatype Phase = Playing | Result {
    function Name(): string {
      match this
      case Playing => "playing"
      case Result => "result"
    }
  }

  /** The game state dictionary: age, name, five traits, round counter, phase. */
  datatype GameState = GameState(
    childAge: int,
    childName: string,
    traits: Traits,
    totalSituations: int,
    phase: Phase)

  /** The keys of the game state that are not traits. An analysis' effects
      never name them: adding an integer to them is not a trait update. */
  const NonTraitKeys: set<string> := {"child_age", "child_name", "total_situations", "game_phase"}

  const InitialTraits: Traits := Traits(70, 50, 60, 55, 45)

  const InitialGameState: GameState := GameState(3, "우리 아이", InitialTraits, 0, Playing)

  /** A scenario, applicable to ages `ageFrom` through `ageTo` inclusive. */
  datatype Situation = Situation(ageFrom: int, ageTo: int, scenario: string, context: string) {
    predicate Covers(age: int) {
      ageFrom <= age <= ageTo
    }
  }

  /** The fixed scenario catalog, one scenario per odd age from 3 to 17. */
  const Situations: seq<Situation> := [
    Situation(3, 3, Scenario0, Context0),
    Situation(5, 5, Scenario1, Context1),
    Situation(7, 7, Scenario2, Context2),
    Situation(9, 9, Scenario3, Context3),
    Situation(11, 11, Scenario4, Context4),
    Situation(13, 13, Scenario5, Context5),
    Situation(15, 15, Scenario6, Context6),
    Situation(17, 17, Scenario7, Context7)
  ]

  /** The scenario texts and their context labels, by catalog index. */
  const Scenario0: string := "마트에서 아이가 과자를 사달라며 바닥에 누워 떼를 쓰고 있습니다. 주변 사람들이 쳐다보고 있어요."
  const Context0: string := "공공장소에서의 떼쓰기 상황"
  const Scenario1: string := "유치원 친구가 갖고 싶었던 장난감을 갖고 놀고 있습니다. 아이가 떼를 쓰며 '나도 저거 갖고 싶어!'라고 소리칩니다."
  const Context1: string := "나누기와 소유욕"
  const Scenario2: string := "숙제를 하기 싫다며 책상 앞에 앉기만 하고 30분째 아무것도 하지 않고 있어요."
  const Context2: string := "학습 습관과 책임감"
  const Scenario3: string := "아이가 '나만 빼고 다 학원 다녀'라며 친구들과 비교하는 말을 합니다. 학원을 보내달라고 떼를 씁니다."
  const Context3: string := "또래 압력과 교육열"
  const Scenario4: string := "아이가 거짓말을 했다는 것을 알게 됐습니다. '숙제 다 했어'라고 했는데 실제로는 하지 않았어요."
  const Context4: string := "정직함과 신뢰관계"
  const Scenario5: string := "학교에서 시험 성적이 많이 떨어졌습니다. 아이는 '어차피 난 머리가 나쁘니까'라며 포기하는 모습을 보입니다."
  const Context5: string := "자존감과 학습동기"
  const Scenario6: string := "아이가 밤늦게까지 스마트폰을 보고 있다가 다음 날 학교에 늦었습니다. 지적하자 '친구들은 더 늦게까지 해'라고 반항합니다."
  const Context6: string := "미디어 사용과 자율성"
  const Scenario7: string := "아이가 늦은 시간에 들어와서 술냄새가 납니다. 친구들과 처음으로 술을 마셨다고 솔직하게 말합니다."
  const Context7: string := "청소년기 일탈과 신뢰"

  /** The number of rounds after which the game moves to its result phase. */
  const TotalRounds: int := 8

  /** Each catalog entry covers exactly the age 3 + 2 * (its index). */
  lemma CatalogAges(i: nat)
    requires i < |Situations|
    ensures Situations[i].ageFrom == Situations[i].ageTo == 3 + 2 * i
  {
  }
}
