/** The rules of the board resolver: the search keywords of a Mattermost Boards
    card, the completeness questions asked before solutions are proposed and
    their markdown rendering, the score of one proposed solution, and the
    ranking of several. */
module BoardResolver {
  import opened Wrappers
  import opened Text
  import opened Json

  const AttributeError := "AttributeError"
  const TypeError := "TypeError"

  // ---------------------------------------------------------------------------
  // Reading parsed JSON the way the script does

  /** `d.get(k, dflt)` on the pairs of a dict. */
  function GetD(fields: seq<(string, Json)>, k: string, dflt: Json): Json {
    if fields == [] then dflt else if fields[0].0 == k then fields[0].1 else GetD(fields[1..], k, dflt)
  }

  /** A string's characters, each a one-character string. */
  function Chars(s: string): (r: seq<Json>)
    ensures |r| == |s|
    ensures forall i :: 0 <= i < |s| ==> r[i] == JStr([s[i]])
  {
    if s == [] then [] else [JStr([s[0]])] + Chars(s[1..])
  }

  /** What `for x in j` visits: a list's items, a string's characters or a
      dict's keys; `None`, booleans and integers are not iterable. */
  function Iter(j: Json): (r: Option<seq<Json>>)
    ensures j.JArr? ==> r == Some(j.items)
    ensures r.None? <==> j.JNull? || j.JBool? || j.JInt?
  {
    match j
    case JArr(items) => Some(items)
    case JStr(s) => Some(Chars(s))
    case JObj(fields) => Some(StrValues(Keys(fields)))
    case _ => None
  }

  // ---------------------------------------------------------------------------
  // extract_keywords

  /** `fields.get("title", "") or card.get("title", "")`, where `card` and its
      `fields` default to `{}` and must be dicts. */
  function TitleOf(data: seq<(string, Json)>): Result<Json> {
    var card := GetD(data, "card", JObj([]));
    if !card.JObj? then Err(AttributeError)
    else
      var fields := GetD(card.fields, "fields", JObj([]));
      if !fields.JObj? then Err(AttributeError)
      else Ok(Or(GetD(fields.fields, "title", JStr("")), GetD(card.fields, "title", JStr(""))))
  }

  /** The keyword a property value contributes: its `value` when that is a non-empty string. */
  predicate PropKeyword(p: Json) {
    p.JObj? && Truthy(Field(p.fields, "value")) && Field(p.fields, "value").JStr?
  }

  /** The candidates from `cardPropertyValues`, in order; each entry must be a dict. */
  function PropKeywords(props: seq<Json>): (r: Result<seq<Json>>)
    ensures r.Ok? <==> forall i :: 0 <= i < |props| ==> props[i].JObj?
    ensures r.Err? ==> r == Err(AttributeError)
  {
    if props == [] then Ok([])
    else
      var p := props[|props| - 1];
      match PropKeywords(props[..|props| - 1])
      case Err(e) => Err(e)
      case Ok(ks) =>
        if !p.JObj? then Err(AttributeError)
        else Ok(if PropKeyword(p) then ks + [Field(p.fields, "value")] else ks)
  }

  /** The title of one content block: `content.get("fields", {}).get("title", "")`. */
  function ContentTitle(content: Json): Result<Json> {
    if !content.JObj? then Err(AttributeError)
    else
      var cf := GetD(content.fields, "fields", JObj([]));
      if !cf.JObj? then Err(AttributeError) else Ok(GetD(cf.fields, "title", JStr("")))
  }

  /** The candidates from `cardContents`, in order: every truthy content title. */
  function ContentKeywords(contents: seq<Json>): (r: Result<seq<Json>>)
    ensures r.Ok? ==> forall k :: 0 <= k < |r.value| ==> Truthy(r.value[k])
  {
    if contents == [] then Ok([])
    else
      match ContentKeywords(contents[..|contents| - 1])
      case Err(e) => Err(e)
      case Ok(ks) =>
        match ContentTitle(contents[|contents| - 1])
        case Err(e) => Err(e)
        case Ok(t) => Ok(if Truthy(t) then ks + [t] else ks)
  }

  /** The `keywords` list before de-duplication: the title, the string property
      values and the content titles, in that order. */
  function Candidates(cardData: Json): Result<seq<Json>> {
    if !cardData.JObj? then Err(AttributeError)
    else
      match TitleOf(cardData.fields)
      case Err(e) => Err(e)
      case Ok(title) =>
        match Iter(GetD(cardData.fields, "cardPropertyValues", JArr([])))
        case None => Err(TypeError)
        case Some(props) =>
          match PropKeywords(props)
          case Err(e) => Err(e)
          case Ok(pk) =>
            match Iter(GetD(cardData.fields, "cardContents", JArr([])))
            case None => Err(TypeError)
            case Some(contents) =>
              match ContentKeywords(contents)
              case Err(e) => Err(e)
              case Ok(ck) => Ok((if Truthy(title) then [title] else []) + pk + ck)
  }

  /** `set(k.strip() for k in ks if k and k.strip())`: a truthy value that is
      not a string has no `strip`. */
  function StrippedSet(ks: seq<Json>): (r: Result<set<string>>)
    ensures r.Ok? <==> forall i :: 0 <= i < |ks| ==> !Truthy(ks[i]) || ks[i].JStr?
  {
    if ks == [] then Ok({})
    else
      match StrippedSet(ks[1..])
      case Err(e) => Err(e)
      case Ok(rest) =>
        if !Truthy(ks[0]) then Ok(rest)
        else if !ks[0].JStr? then Err(AttributeError)
        else if Strip(ks[0].s) == [] then Ok(rest)
        else Ok({Strip(ks[0].s)} + rest)
  }

  /** `extract_keywords(card_data)`, as a set: the list the script returns comes
      from a `set`, so its order carries no meaning. */
  function Keywords(cardData: Json): Result<set<string>> {
    match Candidates(cardData)
    case Err(e) => Err(e)
    case Ok(cs) => StrippedSet(cs)
  }

  /** A keyword is a stripped candidate string. */
  predicate StrippedFrom(ks: seq<Json>, k: string) {
    exists i :: 0 <= i < |ks| && ks[i].JStr? && Strip(ks[i].s) == k
  }

  /** The keyword set holds exactly the non-blank stripped candidate strings. */
  lemma {:induction false} StrippedSetMembers(ks: seq<Json>)
    requires StrippedSet(ks).Ok?
    ensures forall k :: k in StrippedSet(ks).value <==> k != [] && StrippedFrom(ks, k)
  {
    if ks != [] {
      StrippedSetMembers(ks[1..]);
      forall k ensures k in StrippedSet(ks).value <==> k != [] && StrippedFrom(ks, k) {
        if StrippedFrom(ks, k) && k != [] {
          var i :| 0 <= i < |ks| && ks[i].JStr? && Strip(ks[i].s) == k;
          if i > 0 { assert ks[1..][i - 1] == ks[i]; }
        }
        if StrippedFrom(ks[1..], k) {
          var i :| 0 <= i < |ks[1..]| && ks[1..][i].JStr? && Strip(ks[1..][i].s) == k;
          assert ks[i + 1] == ks[1..][i];
        }
      }
    }
  }

  /** `s.strip().strip() == s.strip()`. */
  lemma StripIdempotent(s: string)
    ensures Strip(Strip(s)) == Strip(s)
  {
    StripEnds(s);
    StripOfNonSpaceEnds(Strip(s));
  }

  /** The keywords have no duplicates (they form a set), none is empty, none
      has blanks at either end, and each is the stripped form of a candidate. */
  lemma KeywordsClean(cardData: Json)
    requires Keywords(cardData).Ok?
    ensures forall k :: k in Keywords(cardData).value ==>
        k != [] && Strip(k) == k && StrippedFrom(Candidates(cardData).value, k)
  {
    var cs := Candidates(cardData).value;
    StrippedSetMembers(cs);
    forall k | k in Keywords(cardData).value ensures Strip(k) == k {
      var i :| 0 <= i < |cs| && cs[i].JStr? && Strip(cs[i].s) == k;
      StripIdempotent(cs[i].s);
    }
  }

  /** A property value that is a string with something besides blanks makes a keyword. */
  lemma {:induction false} PropValueIsCandidate(props: seq<Json>, i: nat)
    requires i < |props| && PropKeywords(props).Ok? && PropKeyword(props[i])
    ensures Field(props[i].fields, "value") in PropKeywords(props).value
  {
    var n := |props| - 1;
    if i < n {
      assert props[..n][i] == props[i];
      PropValueIsCandidate(props[..n], i);
    }
  }

  /** Every property candidate is a non-empty string value of some property. */
  lemma {:induction false} PropCandidatesAreValues(props: seq<Json>)
    requires PropKeywords(props).Ok?
    ensures forall v :: v in PropKeywords(props).value ==>
        v.JStr? && v.s != [] && exists i :: 0 <= i < |props| && PropKeyword(props[i]) && Field(props[i].fields, "value") == v
  {
    if props != [] {
      var n := |props| - 1;
      PropCandidatesAreValues(props[..n]);
      forall v | v in PropKeywords(props).value
        ensures exists i :: 0 <= i < |props| && PropKeyword(props[i]) && Field(props[i].fields, "value") == v
      {
        if v in PropKeywords(props[..n]).value {
          var i :| 0 <= i < n && PropKeyword(props[..n][i]) && Field(props[..n][i].fields, "value") == v;
          assert props[i] == props[..n][i];
        } else {
          assert PropKeyword(props[n]) && Field(props[n].fields, "value") == v;
        }
      }
    }
  }

  /** The title, when it is a string with something besides blanks, gives a keyword. */
  lemma TitleIsKeyword(cardData: Json)
    requires Keywords(cardData).Ok? && TitleOf(cardData.fields).Ok?
    requires TitleOf(cardData.fields).value.JStr? && Strip(TitleOf(cardData.fields).value.s) != []
    ensures Strip(TitleOf(cardData.fields).value.s) in Keywords(cardData).value
  {
    var cs := Candidates(cardData).value;
    var t := TitleOf(cardData.fields).value;
    assert cs[0] == t;
    StrippedSetMembers(cs);
    assert StrippedFrom(cs, Strip(t.s));
  }

  /** The loop over `cardPropertyValues`. */
  method CollectPropKeywords(ps: seq<Json>) returns (r: Result<seq<Json>>)
    ensures r == PropKeywords(ps)
  {
    var found: seq<Json> := [];
    for i := 0 to |ps|
      invariant PropKeywords(ps[..i]) == Ok(found)
    {
      assert ps[..i + 1][..i] == ps[..i];
      var p := ps[i];
      if !p.JObj? {
        return Err(AttributeError);
      }
      var value := Field(p.fields, "value");
      if Truthy(value) && value.JStr? {
        found := found + [value];
      }
    }
    assert ps[..|ps|] == ps;
    return Ok(found);
  }

  /** The loop over `cardContents`. */
  method CollectContentKeywords(cs: seq<Json>) returns (r: Result<seq<Json>>)
    ensures r == ContentKeywords(cs)
  {
    var found: seq<Json> := [];
    for i := 0 to |cs|
      invariant ContentKeywords(cs[..i]) == Ok(found)
    {
      assert cs[..i + 1][..i] == cs[..i];
      var text := ContentTitle(cs[i]);
      if text.Err? {
        ContentPrefixErr(cs, i + 1);
        return Err(text.msg);
      }
      if Truthy(text.value) {
        found := found + [text.value];
      }
    }
    assert cs[..|cs|] == cs;
    return Ok(found);
  }

  /** `extract_keywords`: the title, the property values, the content titles,
      then the stripped set. */
  method ExtractKeywords(cardData: Json) returns (r: Result<set<string>>)
    ensures r == Keywords(cardData)
  {
    if !cardData.JObj? { return Err(AttributeError); }
    var title := TitleOf(cardData.fields);
    if title.Err? { return Err(title.msg); }
    var props := Iter(GetD(cardData.fields, "cardPropertyValues", JArr([])));
    if props.None? { return Err(TypeError); }
    var fromProps := CollectPropKeywords(props.value);
    if fromProps.Err? { return Err(fromProps.msg); }
    var contents := Iter(GetD(cardData.fields, "cardContents", JArr([])));
    if contents.None? { return Err(TypeError); }
    var fromContents := CollectContentKeywords(contents.value);
    if fromContents.Err? { return Err(fromContents.msg); }
    var keywords := (if Truthy(title.value) then [title.value] else []) + fromProps.value + fromContents.value;
    r := StrippedSet(keywords);
  }

  /** A bad content block in a prefix makes the whole list fail with its error. */
  lemma {:induction false} ContentPrefixErr(contents: seq<Json>, n: nat)
    requires n <= |contents| && ContentKeywords(contents[..n]).Err?
    ensures ContentKeywords(contents) == ContentKeywords(contents[..n])
    decreases |contents| - n
  {
    if n < |contents| {
      var m := |contents| - 1;
      assert contents[..n] == contents[..m][..n];
      ContentPrefixErr(contents[..m], n);
    } else {
      assert contents[..n] == contents;
    }
  }

  // ---------------------------------------------------------------------------
  // check_info_completeness

  datatype Question = Question(question: string, reason: string)

  /** The check's verdict: complete when no required question is left. */
  datatype Completeness = Completeness(isComplete: bool, required: seq<Question>, optional: seq<Question>)

  const ReproQ := Question("이슈가 발생하는 구체적인 재현 단계를 알려주세요",
                           "정확한 원인 파악을 위해 재현 조건이 필요합니다")
  const EnvQ := Question("어떤 환경에서 발생하나요? (개발/스테이징/운영)",
                         "환경별로 원인이 다를 수 있습니다")
  const FreqQ := Question("항상 발생하나요, 아니면 간헐적으로 발생하나요?",
                          "발생 빈도에 따라 원인 유형이 달라집니다")
  const PreferenceQ := Question("선호하는 해결 방식이 있나요?",
                                "여러 해결방안이 가능하여 선호도 확인이 도움됩니다")
  const ApiQ := Question("API 시그니처 변경이 가능한가요?",
                         "하위 호환성 영향을 판단하기 위해 필요합니다")
  const DbQ := Question("DB 스키마 변경이 허용되나요?",
                        "근본적 해결을 위해 스키마 변경이 필요할 수 있습니다")
  const DependencyQ := Question("새로운 라이브러리 추가가 가능한가요?",
                                "일부 해결방안에서 외부 라이브러리가 필요할 수 있습니다")

  /** The questions whose flag is set, in their given order. */
  function Picked(qs: seq<Question>, flags: seq<bool>): (r: seq<Question>)
    requires |flags| == |qs|
    ensures |r| <= |qs|
  {
    if qs == [] then []
    else
      var n := |qs| - 1;
      Picked(qs[..n], flags[..n]) + (if flags[n] then [qs[n]] else [])
  }

  /** Among distinct questions, one is picked exactly when its flag is set. */
  lemma {:induction false} PickedMembers(qs: seq<Question>, flags: seq<bool>)
    requires |flags| == |qs|
    requires forall i, j :: 0 <= i < j < |qs| ==> qs[i] != qs[j]
    ensures forall i :: 0 <= i < |qs| ==> (qs[i] in Picked(qs, flags) <==> flags[i])
    ensures Picked(qs, flags) == [] <==> forall i :: 0 <= i < |qs| ==> !flags[i]
  {
    if qs != [] {
      var n := |qs| - 1;
      PickedMembers(qs[..n], flags[..n]);
      forall i | 0 <= i < n ensures qs[i] == qs[..n][i] && flags[i] == flags[..n][i] { }
      assert qs[n] !in Picked(qs[..n], flags[..n]) by {
        forall i | 0 <= i < n ensures qs[n] != qs[..n][i] { assert qs[..n][i] == qs[i]; }
        PickedFrom(qs[..n], flags[..n]);
      }
    }
  }

  /** Every picked question is one of the given ones. */
  lemma {:induction false} PickedFrom(qs: seq<Question>, flags: seq<bool>)
    requires |flags| == |qs|
    ensures forall q :: q in Picked(qs, flags) ==> q in qs
  {
    if qs != [] {
      var n := |qs| - 1;
      PickedFrom(qs[..n], flags[..n]);
    }
  }

  /** Two picked questions keep their relative order. */
  lemma {:induction false} PickedOrder(qs: seq<Question>, flags: seq<bool>, i: nat, j: nat)
    requires |flags| == |qs| && i < j < |qs| && flags[i] && flags[j]
    requires forall a, b :: 0 <= a < b < |qs| ==> qs[a] != qs[b]
    ensures exists p, q :: 0 <= p < q < |Picked(qs, flags)| && Picked(qs, flags)[p] == qs[i] && Picked(qs, flags)[q] == qs[j]
  {
    var n := |qs| - 1;
    var pre := Picked(qs[..n], flags[..n]);
    assert qs[..n][i] == qs[i] && flags[..n][i] == flags[i];
    if j == n {
      PickedMembers(qs[..n], flags[..n]);
      var p :| 0 <= p < |pre| && pre[p] == qs[i];
      assert Picked(qs, flags)[p] == qs[i] && Picked(qs, flags)[|pre|] == qs[j];
    } else {
      assert qs[..n][j] == qs[j] && flags[..n][j] == flags[j];
      PickedOrder(qs[..n], flags[..n], i, j);
      var p, q :| 0 <= p < q < |pre| && pre[p] == qs[i] && pre[q] == qs[j];
      assert Picked(qs, flags)[p] == qs[i] && Picked(qs, flags)[q] == qs[j];
    }
  }

  const RequiredQuestions := [ReproQ, EnvQ, FreqQ]
  const OptionalQuestions := [PreferenceQ, ApiQ, DbQ, DependencyQ]

  /** Which required questions are asked: one per falsy field. */
  function Missing(ctx: seq<(string, Json)>): seq<bool> {
    [!Truthy(Field(ctx, "reproduction_steps")), !Truthy(Field(ctx, "environment")), !Truthy(Field(ctx, "frequency"))]
  }

  /** Which optional questions are asked: one per truthy flag. */
  function Flagged(ctx: seq<(string, Json)>): seq<bool> {
    [Truthy(Field(ctx, "multiple_solutions")), Truthy(Field(ctx, "affects_api")),
     Truthy(Field(ctx, "affects_db")), Truthy(Field(ctx, "needs_new_dependency"))]
  }

  /** `check_info_completeness(context)`; the context must be a dict. */
  function CheckInfo(context: Json): (r: Result<Completeness>)
    ensures r.Ok? <==> context.JObj?
    ensures r.Ok? ==> (r.value.isComplete <==> r.value.required == [])
  {
    if !context.JObj? then Err(AttributeError)
    else
      var required := Picked(RequiredQuestions, Missing(context.fields));
      Ok(Completeness(required == [], required, Picked(OptionalQuestions, Flagged(context.fields))))
  }

  /** The required questions distinct, and so are the optional ones. */
  lemma QuestionsDistinct()
    ensures forall i, j :: 0 <= i < j < |RequiredQuestions| ==> RequiredQuestions[i] != RequiredQuestions[j]
    ensures forall i, j :: 0 <= i < j < |OptionalQuestions| ==> OptionalQuestions[i] != OptionalQuestions[j]
  {
    assert ReproQ.question[0] != EnvQ.question[0] && ReproQ.question[0] != FreqQ.question[0] && EnvQ.question[0] != FreqQ.question[0];
    assert PreferenceQ.question[0] != ApiQ.question[0] && PreferenceQ.question[0] != DbQ.question[0];
    assert PreferenceQ.question[0] != DependencyQ.question[0] && ApiQ.question[0] != DependencyQ.question[0];
    assert DbQ.question[0] != DependencyQ.question[0] && ApiQ.question[1] != DbQ.question[1];
  }

  /** Each required question is asked exactly when its field is missing (falsy),
      the context is complete exactly when none is, and each optional question is
      asked exactly when its flag is truthy, whatever the completeness. */
  lemma CheckInfoQuestions(context: Json)
    requires context.JObj?
    ensures var c := CheckInfo(context).value; var ctx := context.fields;
      && (ReproQ in c.required <==> !Truthy(Field(ctx, "reproduction_steps")))
      && (EnvQ in c.required <==> !Truthy(Field(ctx, "environment")))
      && (FreqQ in c.required <==> !Truthy(Field(ctx, "frequency")))
      && (c.isComplete <==> Truthy(Field(ctx, "reproduction_steps")) && Truthy(Field(ctx, "environment"))
                            && Truthy(Field(ctx, "frequency")))
      && (PreferenceQ in c.optional <==> Truthy(Field(ctx, "multiple_solutions")))
      && (ApiQ in c.optional <==> Truthy(Field(ctx, "affects_api")))
      && (DbQ in c.optional <==> Truthy(Field(ctx, "affects_db")))
      && (DependencyQ in c.optional <==> Truthy(Field(ctx, "needs_new_dependency")))
  {
    var ctx := context.fields;
    QuestionsDistinct();
    Asked(RequiredQuestions, Missing(ctx));
    Asked(OptionalQuestions, Flagged(ctx));
  }

  /** `PickedMembers` for a fixed list of questions, one question at a time. */
  lemma Asked(qs: seq<Question>, flags: seq<bool>)
    requires |flags| == |qs|
    requires forall i, j :: 0 <= i < j < |qs| ==> qs[i] != qs[j]
    ensures |qs| > 0 ==> (qs[0] in Picked(qs, flags) <==> flags[0])
    ensures |qs| > 1 ==> (qs[1] in Picked(qs, flags) <==> flags[1])
    ensures |qs| > 2 ==> (qs[2] in Picked(qs, flags) <==> flags[2])
    ensures |qs| > 3 ==> (qs[3] in Picked(qs, flags) <==> flags[3])
    ensures |qs| == 3 ==> (Picked(qs, flags) == [] <==> !flags[0] && !flags[1] && !flags[2])
  {
    PickedMembers(qs, flags);
  }

  /** Asked questions keep the order of the script's checks. */
  lemma CheckInfoOrder(context: Json, i: nat, j: nat)
    requires context.JObj?
    ensures var c := CheckInfo(context).value;
      && (i < j < 3 && Missing(context.fields)[i] && Missing(context.fields)[j] ==>
          exists p, q :: 0 <= p < q < |c.required| && c.required[p] == RequiredQuestions[i] && c.required[q] == RequiredQuestions[j])
      && (i < j < 4 && Flagged(context.fields)[i] && Flagged(context.fields)[j] ==>
          exists p, q :: 0 <= p < q < |c.optional| && c.optional[p] == OptionalQuestions[i] && c.optional[q] == OptionalQuestions[j])
  {
    var ctx := context.fields;
    QuestionsDistinct();
    var c := CheckInfo(context).value;
    assert c.required == Picked(RequiredQuestions, Missing(ctx));
    assert c.optional == Picked(OptionalQuestions, Flagged(ctx));
    if i < j < 3 && Missing(ctx)[i] && Missing(ctx)[j] {
      PickedOrder(RequiredQuestions, Missing(ctx), i, j);
    }
    if i < j < 4 && Flagged(ctx)[i] && Flagged(ctx)[j] {
      PickedOrder(OptionalQuestions, Flagged(ctx), i, j);
    }
  }

  // ---------------------------------------------------------------------------
  // format_question_output

  const CompleteMessage := "정보 수집 완료. Phase 4로 진행 가능합니다."
  const RequestHeading := "## 추가 정보 요청\n"
  const RequestIntro := "해결방안을 정확히 도출하기 위해 다음 정보가 필요합니다:\n"
  const RequiredHeading := "### 필수 정보"
  const OptionalHeading := "### 선택 정보 (있으면 도움됨)"
  const RequestClosing := "위 정보를 제공해 주시면 더 정확한 해결방안을 제시할 수 있습니다."

  /** `f"{n}. {item['question']}"`. */
  function QuestionLine(n: nat, q: Question): string {
    NatToStr(n) + ". " + q.question
  }

  /** `f"   - 필요 이유: {item['reason']}"`. */
  function ReasonLine(q: Question): string {
    "   - 필요 이유: " + q.reason
  }

  /** The two lines of each question, numbered from `start`. */
  function QuestionLines(items: seq<Question>, start: nat): (r: seq<string>)
    ensures |r| == 2 * |items|
  {
    if items == [] then []
    else
      var n := |items| - 1;
      QuestionLines(items[..n], start) + [QuestionLine(start + n, items[n]), ReasonLine(items[n])]
  }

  /** A heading, its questions and a blank line; nothing for no questions. */
  function Section(heading: string, items: seq<Question>, start: nat): seq<string> {
    if items == [] then [] else [heading] + QuestionLines(items, start) + [""]
  }

  /** The lines of the request for more information. */
  function RequestLines(c: Completeness): seq<string> {
    [RequestHeading, RequestIntro] + Section(RequiredHeading, c.required, 1)
    + Section(OptionalHeading, c.optional, |c.required| + 1) + [RequestClosing]
  }

  /** `format_question_output(check_result)`. */
  function QuestionOutput(c: Completeness): string {
    if c.isComplete then CompleteMessage else Join(RequestLines(c), "\n")
  }

  /** Question `k` is on line `2k`, numbered `start + k`, with its reason below it. */
  lemma {:induction false} QuestionLinesAt(items: seq<Question>, start: nat, k: nat)
    requires k < |items|
    ensures QuestionLines(items, start)[2 * k] == QuestionLine(start + k, items[k])
    ensures QuestionLines(items, start)[2 * k + 1] == ReasonLine(items[k])
  {
    var n := |items| - 1;
    if k < n {
      QuestionLinesAt(items[..n], start, k);
      assert items[..n][k] == items[k];
    }
  }

  /** Inside any surrounding lines, question `k` of a section stands `2k + 1`
      lines after the section's start. */
  lemma SectionAt(pre: seq<string>, heading: string, items: seq<Question>, start: nat, post: seq<string>, k: nat)
    requires k < |items|
    ensures (pre + Section(heading, items, start) + post)[|pre| + 1 + 2 * k] == QuestionLine(start + k, items[k])
    ensures (pre + Section(heading, items, start) + post)[|pre| + 2 + 2 * k] == ReasonLine(items[k])
  {
    QuestionLinesAt(items, start, k);
    var sec := Section(heading, items, start);
    assert (pre + sec + post)[|pre| + 1 + 2 * k] == sec[1 + 2 * k];
    assert (pre + sec + post)[|pre| + 2 + 2 * k] == sec[2 + 2 * k];
  }

  /** Required questions are numbered 1..r and optional ones continue r+1..r+o,
      each followed by its reason. */
  lemma Numbering(c: Completeness)
    ensures forall k :: 0 <= k < |c.required| ==>
        RequestLines(c)[3 + 2 * k] == QuestionLine(k + 1, c.required[k])
        && RequestLines(c)[4 + 2 * k] == ReasonLine(c.required[k])
    ensures var o := OptionalStart(c);
      forall k :: 0 <= k < |c.optional| ==>
        RequestLines(c)[o + 2 * k] == QuestionLine(|c.required| + 1 + k, c.optional[k])
        && RequestLines(c)[o + 2 * k + 1] == ReasonLine(c.optional[k])
  {
    var pre := [RequestHeading, RequestIntro];
    var req := Section(RequiredHeading, c.required, 1);
    var opt := Section(OptionalHeading, c.optional, |c.required| + 1);
    assert RequestLines(c) == pre + req + (opt + [RequestClosing]);
    RequiredNumbering(pre, RequiredHeading, c.required, opt + [RequestClosing]);
    assert OptionalStart(c) == |pre + req| + 1;
    OptionalNumbering(pre + req, OptionalHeading, c.optional, |c.required| + 1, [RequestClosing]);
  }

  /** The required half of `Numbering`, for any surrounding lines. */
  lemma RequiredNumbering(pre: seq<string>, rh: string, req: seq<Question>, rest: seq<string>)
    requires |pre| == 2
    ensures forall k :: 0 <= k < |req| ==>
        (pre + Section(rh, req, 1) + rest)[3 + 2 * k] == QuestionLine(k + 1, req[k])
        && (pre + Section(rh, req, 1) + rest)[4 + 2 * k] == ReasonLine(req[k])
  {
    forall k | 0 <= k < |req|
      ensures (pre + Section(rh, req, 1) + rest)[3 + 2 * k] == QuestionLine(k + 1, req[k])
      ensures (pre + Section(rh, req, 1) + rest)[4 + 2 * k] == ReasonLine(req[k])
    {
      SectionAt(pre, rh, req, 1, rest, k);
    }
  }

  /** The optional half of `Numbering`, for any surrounding lines. */
  lemma OptionalNumbering(pre: seq<string>, oh: string, opt: seq<Question>, start: nat, post: seq<string>)
    ensures forall k :: 0 <= k < |opt| ==>
        (pre + Section(oh, opt, start) + post)[|pre| + 1 + 2 * k] == QuestionLine(start + k, opt[k])
        && (pre + Section(oh, opt, start) + post)[|pre| + 2 + 2 * k] == ReasonLine(opt[k])
  {
    forall k | 0 <= k < |opt|
      ensures (pre + Section(oh, opt, start) + post)[|pre| + 1 + 2 * k] == QuestionLine(start + k, opt[k])
      ensures (pre + Section(oh, opt, start) + post)[|pre| + 2 + 2 * k] == ReasonLine(opt[k])
    {
      SectionAt(pre, oh, opt, start, post, k);
    }
  }

  /** Where the first optional question stands: after the two header lines,
      the optional heading, and the required section when there is one. */
  function OptionalStart(c: Completeness): nat {
    if c.required == [] then 3 else 5 + 2 * |c.required|
  }

  /** The loop of one section: `lines` grows by the numbered questions. */
  method AppendQuestions(lines: seq<string>, items: seq<Question>, start: nat) returns (r: seq<string>)
    ensures r == lines + QuestionLines(items, start)
  {
    r := lines;
    for i := 0 to |items|
      invariant r == lines + QuestionLines(items[..i], start)
    {
      assert items[..i + 1][..i] == items[..i];
      r := r + [QuestionLine(start + i, items[i]), ReasonLine(items[i])];
    }
    assert items[..|items|] == items;
  }

  /** One section of the request: its heading, its questions and a blank line. */
  method SectionLines(heading: string, items: seq<Question>, start: nat) returns (r: seq<string>)
    ensures r == Section(heading, items, start)
  {
    if items == [] { return []; }
    r := AppendQuestions([heading], items, start);
    r := r + [""];
  }

  /** `format_question_output`. */
  method FormatQuestionOutput(c: Completeness) returns (r: string)
    ensures r == QuestionOutput(c)
  {
    if c.isComplete {
      return CompleteMessage;
    }
    var required := SectionLines(RequiredHeading, c.required, 1);
    var optional := SectionLines(OptionalHeading, c.optional, |c.required| + 1);
    var lines := [RequestHeading, RequestIntro] + required + optional + [RequestClosing];
    return Join(lines, "\n");
  }

  // ---------------------------------------------------------------------------
  // calculate_score

  /** A weight set, in percent. */
  datatype Weights = Weights(relevance: nat, complexity: nat, risk: nat, testability: nat)

  function WeightSum(w: Weights): nat {
    w.relevance + w.complexity + w.risk + w.testability
  }

  const NormalWeights := Weights(40, 25, 20, 15)
  const UrgentWeights := Weights(35, 35, 15, 15)
  const ImprovementWeights := Weights(35, 20, 30, 15)

  /** The weights for a `priority` value: an urgent issue weighs complexity
      up, an improvement weighs risk up; every set sums to 100 percent. */
  function WeightsFor(priority: Json): (w: Weights)
    ensures WeightSum(w) == 100
    ensures priority == JStr("urgent") ==> w.complexity > NormalWeights.complexity
    ensures priority == JStr("improvement") ==> w.risk > NormalWeights.risk
    ensures priority != JStr("urgent") && priority != JStr("improvement") ==> w == NormalWeights
  {
    if priority == JStr("urgent") then UrgentWeights
    else if priority == JStr("improvement") then ImprovementWeights
    else NormalWeights
  }

  /** The four scores on the 100-point scale, the relevance one doubled so
      that the 62.5 of `indirect` is a whole number. */
  datatype Scores = Scores(relevanceTwice: nat, complexity: nat, risk: nat, testability: nat)

  /** `relevance_map.get(relevance, 25)`, doubled; a list or dict is not hashable. */
  function RelevanceTwice(j: Json): (r: Result<nat>)
    ensures r.Err? <==> j.JArr? || j.JObj?
    ensures r.Ok? ==> r.value == 200 || r.value == 125 || r.value == 50
  {
    if j.JArr? || j.JObj? then Err(TypeError)
    else if j == JStr("direct") then Ok(200)
    else if j == JStr("indirect") then Ok(125)
    else Ok(50)
  }

  /** The complexity tier of a change of `lines` lines. */
  function ComplexityTier(lines: int): (r: nat)
    ensures r == 100 || r == 80 || r == 60 || r == 20
  {
    if lines <= 5 then 100 else if lines <= 20 then 80 else if lines <= 50 then 60 else 20
  }

  /** `lines <= 5` needs a number: an integer or a boolean (which Python counts as 0 or 1). */
  function LinesOf(j: Json): (r: Result<int>)
    ensures r.Ok? <==> j.JInt? || j.JBool?
  {
    match j
    case JInt(n) => Ok(n)
    case JBool(b) => Ok(if b then 1 else 0)
    case _ => Err(TypeError)
  }

  /** `scope_map.get(scope, 25)`. */
  function RiskTier(j: Json): (r: Result<nat>)
    ensures r.Err? <==> j.JArr? || j.JObj?
    ensures r.Ok? ==> r.value == 100 || r.value == 75 || r.value == 50 || r.value == 25
  {
    if j.JArr? || j.JObj? then Err(TypeError)
    else if j == JStr("function") then Ok(100)
    else if j == JStr("module") then Ok(75)
    else if j == JStr("multi_module") then Ok(50)
    else Ok(25)
  }

  /** `test_map.get(test_type, 33)`. */
  function TestTier(j: Json): (r: Result<nat>)
    ensures r.Err? <==> j.JArr? || j.JObj?
    ensures r.Ok? ==> r.value == 100 || r.value == 67 || r.value == 33
  {
    if j.JArr? || j.JObj? then Err(TypeError)
    else if j == JStr("unit") then Ok(100)
    else if j == JStr("integration") then Ok(67)
    else Ok(33)
  }

  /** The scores of a solution dict, with its defaults `indirect`, 50 lines,
      `system` and `e2e`, read in the script's order. */
  function ScoresOf(sol: seq<(string, Json)>): Result<Scores> {
    match RelevanceTwice(GetD(sol, "relevance", JStr("indirect")))
    case Err(e) => Err(e)
    case Ok(rel) =>
      match LinesOf(GetD(sol, "lines_changed", JInt(50)))
      case Err(e) => Err(e)
      case Ok(lines) =>
        match RiskTier(GetD(sol, "scope", JStr("system")))
        case Err(e) => Err(e)
        case Ok(risk) =>
          match TestTier(GetD(sol, "test_type", JStr("e2e")))
          case Err(e) => Err(e)
          case Ok(test) => Ok(Scores(rel, ComplexityTier(lines), risk, test))
  }

  /** Scores within the ranges of their tables. */
  predicate InRange(s: Scores) {
    50 <= s.relevanceTwice <= 200 && 20 <= s.complexity <= 100 && 25 <= s.risk <= 100 && 33 <= s.testability <= 100
  }

  /** 200 times the weighted total `sum(scores[k] * weights[k])`, computed exactly. */
  function Weighted(s: Scores, w: Weights): nat {
    s.relevanceTwice * w.relevance + 2 * (s.complexity * w.complexity + s.risk * w.risk + s.testability * w.testability)
  }

  function Min(a: int, b: int): int { if a <= b then a else b }

  /** `min(100, int(total + bonus))`; the total is never negative, so `int`
      rounds down. */
  function FinalScore(s: Scores, w: Weights, bonus: nat): int {
    Min(100, (Weighted(s, w) + 200 * bonus) / 200)
  }

  /** The per-criterion part of the total, each rounded down as `int` does. */
  datatype Breakdown = Breakdown(relevance: nat, complexity: nat, risk: nat, testability: nat, bonus: nat)

  function BreakdownOf(s: Scores, w: Weights, bonus: nat): Breakdown {
    Breakdown(s.relevanceTwice * w.relevance / 200, s.complexity * w.complexity / 100,
              s.risk * w.risk / 100, s.testability * w.testability / 100, bonus)
  }

  /** A scored solution, or one excluded because it modifies a constraint. */
  datatype ScoreResult =
    | Excluded(constraint: Json)
    | Scored(score: int, breakdown: Breakdown, weights: Weights)

  /** The `reason` of an exclusion by a string constraint. */
  function ExclusionReason(constraint: string): string {
    "제약 조건 위반: " + constraint + " 수정 불가"
  }

  /** The user feedback when it is truthy; a truthy non-dict has no `get`. */
  datatype Feedback = NoFeedback | Given(fields: seq<(string, Json)>)

  function FeedbackOf(feedback: Json): (r: Result<Feedback>)
    ensures r.Ok? && r.value.Given? ==> feedback == JObj(r.value.fields)
    ensures r.Ok? && r.value.NoFeedback? <==> !Truthy(feedback)
  {
    if !Truthy(feedback) then Ok(NoFeedback)
    else if feedback.JObj? then Ok(Given(feedback.fields))
    else Err(AttributeError)
  }

  function WeightsOf(fb: Feedback): (w: Weights)
    ensures WeightSum(w) == 100
  {
    if fb.NoFeedback? then NormalWeights else WeightsFor(GetD(fb.fields, "priority", JStr("normal")))
  }

  /** `constraint in modifies`: an element equal to it (by Python's `==`) in a
      list, a substring of a string, a key of a dict. */
  function In(c: Json, modified: Json): (r: Result<bool>)
    ensures modified.JArr? ==> r == Ok(exists i :: 0 <= i < |modified.items| && PyEq(c, modified.items[i]))
    ensures r.Ok? <==> modified.JArr? || (modified.JStr? && c.JStr?) || (modified.JObj? && !c.JArr? && !c.JObj?)
  {
    match modified
    case JArr(items) => Ok(exists i :: 0 <= i < |items| && PyEq(c, items[i]))
    case JStr(t) => if c.JStr? then Ok(Contains(t, c.s)) else Err(TypeError)
    case JObj(fields) =>
      if c.JArr? || c.JObj? then Err(TypeError)
      else Ok(c.JStr? && c.s in Keys(fields))
    case _ => Err(TypeError)
  }

  /** The first constraint found in `modified`, if any. */
  function FirstViolation(cs: seq<Json>, modified: Json): (r: Result<Option<Json>>)
    ensures r.Ok? && r.value.Some? ==> r.value.value in cs && In(r.value.value, modified) == Ok(true)
    ensures r.Ok? && r.value.None? ==> forall i :: 0 <= i < |cs| ==> In(cs[i], modified) == Ok(false)
  {
    if cs == [] then Ok(None)
    else
      match In(cs[0], modified)
      case Err(e) => Err(e)
      case Ok(found) => if found then Ok(Some(cs[0])) else FirstViolation(cs[1..], modified)
  }

  /** The constraint check: only with feedback, whose `constraints` default to `[]`. */
  function Violation(fb: Feedback, sol: seq<(string, Json)>): Result<Option<Json>> {
    if fb.NoFeedback? then Ok(None)
    else
      match Iter(GetD(fb.fields, "constraints", JArr([])))
      case None => Err(TypeError)
      case Some(cs) => FirstViolation(cs, GetD(sol, "modifies", JArr([])))
  }

  /** The 10-point bonus when the solution's approach is the preferred one. */
  function BonusOf(fb: Feedback, sol: seq<(string, Json)>): (b: nat)
    ensures b == 0 || b == 10
    ensures b == 10 <==> fb.Given? && Truthy(Field(fb.fields, "preferred_approach"))
                         && PyEq(Field(sol, "approach"), Field(fb.fields, "preferred_approach"))
  {
    if fb.NoFeedback? then 0
    else
      var preferred := Field(fb.fields, "preferred_approach");
      if Truthy(preferred) && PyEq(Field(sol, "approach"), preferred) then 10 else 0
  }

  /** `calculate_score(solution, user_feedback)`. */
  function ScoreOf(solution: Json, feedback: Json): (r: Result<ScoreResult>)
    ensures r.Ok? ==> solution.JObj?
  {
    match FeedbackOf(feedback)
    case Err(e) => Err(e)
    case Ok(fb) =>
      if !solution.JObj? then Err(AttributeError)
      else
        match Violation(fb, solution.fields)
        case Err(e) => Err(e)
        case Ok(Some(c)) => Ok(Excluded(c))
        case Ok(None) =>
          match ScoresOf(solution.fields)
          case Err(e) => Err(e)
          case Ok(s) =>
            var w := WeightsOf(fb);
            var bonus := BonusOf(fb, solution.fields);
            Ok(Scored(FinalScore(s, w, bonus), BreakdownOf(s, w, bonus), w))
  }

  /** The tiers only go down as a change grows. */
  lemma ComplexityMonotone(a: int, b: int)
    requires a <= b
    ensures ComplexityTier(b) <= ComplexityTier(a)
  {
  }

  /** What the tables give lies in their ranges. */
  lemma {:induction false} ScoresInRange(sol: seq<(string, Json)>)
    requires ScoresOf(sol).Ok?
    ensures InRange(ScoresOf(sol).value)
  {
  }

  lemma MulLe(a: nat, b: nat, c: nat)
    requires a <= b
    ensures a * c <= b * c
  {
  }

  /** The weighted total of in-range scores lies between 20 and 100 points. */
  lemma WeightedBounds(s: Scores, w: Weights)
    requires InRange(s) && WeightSum(w) == 100
    ensures 200 * 20 <= Weighted(s, w) <= 200 * 100
  {
    MulLe(s.relevanceTwice, 200, w.relevance);
    MulLe(s.complexity, 100, w.complexity);
    MulLe(s.risk, 100, w.risk);
    MulLe(s.testability, 100, w.testability);
    MulLe(40, s.relevanceTwice, w.relevance);
    MulLe(20, s.complexity, w.complexity);
    MulLe(20, s.risk, w.risk);
    MulLe(20, s.testability, w.testability);
  }

  /** A score lies between 20 and 100, and the bonus adds exactly 10 points up
      to the cap. */
  lemma FinalScoreBounds(s: Scores, w: Weights)
    requires InRange(s) && WeightSum(w) == 100
    ensures 20 <= FinalScore(s, w, 0) <= 100
    ensures FinalScore(s, w, 10) == Min(100, FinalScore(s, w, 0) + 10)
    ensures FinalScore(s, w, 0) < 100 ==> FinalScore(s, w, 10) > FinalScore(s, w, 0)
  {
    WeightedBounds(s, w);
    var x := Weighted(s, w);
    assert (x + 2000) / 200 == x / 200 + 10;
  }

  /** A scored result lies between 20 and 100, uses a weight set summing to
      100 percent, and carries a bonus of 0 or 10. */
  lemma ScoreBounds(solution: Json, feedback: Json)
    requires ScoreOf(solution, feedback).Ok? && ScoreOf(solution, feedback).value.Scored?
    ensures var r := ScoreOf(solution, feedback).value;
      20 <= r.score <= 100 && WeightSum(r.weights) == 100 && (r.breakdown.bonus == 0 || r.breakdown.bonus == 10)
  {
    var fb := FeedbackOf(feedback).value;
    var s := ScoresOf(solution.fields).value;
    ScoresInRange(solution.fields);
    FinalScoreBounds(s, WeightsOf(fb));
  }

  /** Without feedback nothing is excluded, the normal weights apply and there is no bonus. */
  lemma NoFeedbackScore(solution: Json, feedback: Json)
    requires !Truthy(feedback) && ScoreOf(solution, feedback).Ok?
    ensures var r := ScoreOf(solution, feedback).value;
      r.Scored? && r.weights == NormalWeights && r.breakdown.bonus == 0
  {
  }

  /** A solution that modifies a value equal to a constraint is excluded, with a
      constraint it modifies (the first one, in the feedback's order), when both
      are lists. */
  lemma ConstraintExcludes(solution: Json, feedback: Json, cs: seq<Json>, ms: seq<Json>, c: Json, m: Json)
    requires solution.JObj? && feedback.JObj? && feedback.fields != []
    requires GetD(feedback.fields, "constraints", JArr([])) == JArr(cs)
    requires GetD(solution.fields, "modifies", JArr([])) == JArr(ms)
    requires c in cs && m in ms && PyEq(c, m)
    ensures ScoreOf(solution, feedback).Ok?
    ensures ScoreOf(solution, feedback).value.Excluded?
    ensures ScoreOf(solution, feedback).value.constraint in cs
    ensures In(ScoreOf(solution, feedback).value.constraint, JArr(ms)) == Ok(true)
  {
    ListViolation(cs, ms, c, m);
  }

  /** With list `modified`, a constraint equal to one of its elements is always
      found. */
  lemma {:induction false} ListViolation(cs: seq<Json>, ms: seq<Json>, c: Json, m: Json)
    requires c in cs && m in ms && PyEq(c, m)
    ensures FirstViolation(cs, JArr(ms)).Ok? && FirstViolation(cs, JArr(ms)).value.Some?
  {
    var k :| 0 <= k < |ms| && ms[k] == m;
    if cs[0] != c {
      assert c in cs[1..];
      ListViolation(cs[1..], ms, c, m);
    }
  }

  /** A constraint `1` excludes a solution that modifies `[true]`, as `1 == True`
      in Python. */
  lemma OneExcludesTrue()
    ensures FirstViolation([JInt(1)], JArr([JBool(true)])) == Ok(Some(JInt(1)))
  {
    assert PyEq(JInt(1), [JBool(true)][0]);
  }

  /** An excluded solution names a constraint that it modified. */
  lemma ExcludedModifies(solution: Json, feedback: Json)
    requires ScoreOf(solution, feedback).Ok? && ScoreOf(solution, feedback).value.Excluded?
    ensures feedback.JObj? && Iter(GetD(feedback.fields, "constraints", JArr([]))).Some?
    ensures var c := ScoreOf(solution, feedback).value.constraint;
      c in Iter(GetD(feedback.fields, "constraints", JArr([]))).value
      && In(c, GetD(solution.fields, "modifies", JArr([]))) == Ok(true)
  {
  }

  /** The preferred approach raises the score of the same solution by 10
      points, up to the cap. */
  lemma PreferenceBonus(solution: Json, preferred: Json)
    requires solution.JObj? && Truthy(preferred) && PyEq(Field(solution.fields, "approach"), preferred)
    requires ScoreOf(solution, JNull).Ok?
    ensures var plain := ScoreOf(solution, JNull).value;
      var pref := ScoreOf(solution, JObj([("preferred_approach", preferred)]));
      pref.Ok? && pref.value.Scored? && pref.value.breakdown.bonus == 10
      && pref.value.score == Min(100, plain.score + 10)
  {
    var fields := [("preferred_approach", preferred)];
    var fb := Given(fields);
    assert "preferred_approach"[2] != "priority"[2] && "preferred_approach"[0] != "constraints"[0];
    OtherKey("preferred_approach", preferred, "priority", JStr("normal"));
    OtherKey("preferred_approach", preferred, "constraints", JArr([]));
    assert WeightsOf(fb) == NormalWeights;
    assert Violation(fb, solution.fields) == Ok(None);
    assert BonusOf(fb, solution.fields) == 10;
    var s := ScoresOf(solution.fields).value;
    ScoredAs(solution, JNull, NoFeedback);
    ScoredAs(solution, JObj(fields), fb);
    ScoresInRange(solution.fields);
    FinalScoreBounds(s, NormalWeights);
  }

  /** The score of a solution that passes the constraint check. */
  lemma ScoredAs(solution: Json, feedback: Json, fb: Feedback)
    requires solution.JObj? && FeedbackOf(feedback) == Ok(fb) && Violation(fb, solution.fields) == Ok(None)
    requires ScoresOf(solution.fields).Ok?
    ensures var s := ScoresOf(solution.fields).value; var w := WeightsOf(fb); var b := BonusOf(fb, solution.fields);
      ScoreOf(solution, feedback) == Ok(Scored(FinalScore(s, w, b), BreakdownOf(s, w, b), w))
  {
  }

  /** A one-key dict lacks every other key. */
  lemma OtherKey(k: string, v: Json, k2: string, d: Json)
    requires k != k2
    ensures GetD([(k, v)], k2, d) == d
  {
    assert [(k, v)][1..] == [];
  }

  /** The constraint loop of `calculate_score`. */
  method FindViolation(cs: seq<Json>, modified: Json) returns (r: Result<Option<Json>>)
    ensures r == FirstViolation(cs, modified)
  {
    for i := 0 to |cs|
      invariant FirstViolation(cs, modified) == FirstViolation(cs[i..], modified)
    {
      assert cs[i..][1..] == cs[i + 1..];
      var found := In(cs[i], modified);
      if found.Err? { return Err(found.msg); }
      if found.value { return Ok(Some(cs[i])); }
    }
    return Ok(None);
  }

  /** `calculate_score`: weights, constraint check, scores, bonus. */
  method CalculateScore(solution: Json, feedback: Json) returns (r: Result<ScoreResult>)
    ensures r == ScoreOf(solution, feedback)
  {
    var fb := FeedbackOf(feedback);
    if fb.Err? { return Err(fb.msg); }
    var weights := WeightsOf(fb.value);
    if !solution.JObj? { return Err(AttributeError); }
    if fb.value.Given? {
      var constraints := Iter(GetD(fb.value.fields, "constraints", JArr([])));
      if constraints.None? { return Err(TypeError); }
      var v := FindViolation(constraints.value, GetD(solution.fields, "modifies", JArr([])));
      if v.Err? { return Err(v.msg); }
      if v.value.Some? { return Ok(Excluded(v.value.value)); }
    }
    var scores := ScoresOf(solution.fields);
    if scores.Err? { return Err(scores.msg); }
    var bonus := BonusOf(fb.value, solution.fields);
    return Ok(Scored(FinalScore(scores.value, weights, bonus), BreakdownOf(scores.value, weights, bonus), weights));
  }

  // ---------------------------------------------------------------------------
  // cmd_score_multiple

  /** One entry of the ranking: the result with `solution_index` and `solution_name`. */
  datatype Ranked = Ranked(index: nat, name: Json, result: ScoreResult)

  /** The `score` of a result; an excluded one scores 0. */
  function ScoreValue(r: ScoreResult): int {
    if r.Excluded? then 0 else r.score
  }

  /** The sort key `(excluded, -score)`. */
  datatype Key = Key(excluded: bool, negScore: int)

  function KeyOf(x: Ranked): Key {
    Key(x.result.Excluded?, -ScoreValue(x.result))
  }

  /** Python's ordering of `(bool, int)` pairs: `False < True`, then the integers. */
  predicate KeyLe(a: Key, b: Key) {
    (!a.excluded && b.excluded) || (a.excluded == b.excluded && a.negScore <= b.negScore)
  }

  predicate SortedByKey(xs: seq<Ranked>) {
    forall i, j :: 0 <= i < j < |xs| ==> KeyLe(KeyOf(xs[i]), KeyOf(xs[j]))
  }

  /** `x` placed after every entry whose key is not greater. */
  function Insert(s: seq<Ranked>, x: Ranked): (r: seq<Ranked>)
    ensures |r| == |s| + 1
  {
    if s == [] || KeyLe(KeyOf(s[|s| - 1]), KeyOf(x)) then s + [x]
    else Insert(s[..|s| - 1], x) + [s[|s| - 1]]
  }

  /** `list.sort(key=...)`: a stable sort by key, by insertion. */
  function SortByKey(xs: seq<Ranked>): (r: seq<Ranked>)
    ensures |r| == |xs|
  {
    if xs == [] then [] else Insert(SortByKey(xs[..|xs| - 1]), xs[|xs| - 1])
  }

  lemma {:induction false} InsertPermutes(s: seq<Ranked>, x: Ranked)
    ensures multiset(Insert(s, x)) == multiset(s) + multiset{x}
  {
    if s != [] && !KeyLe(KeyOf(s[|s| - 1]), KeyOf(x)) {
      var n := |s| - 1;
      InsertPermutes(s[..n], x);
      assert s == s[..n] + [s[n]];
    }
  }

  /** The sort rearranges its input and nothing else. */
  lemma {:induction false} SortPermutes(xs: seq<Ranked>)
    ensures multiset(SortByKey(xs)) == multiset(xs)
  {
    if xs != [] {
      var n := |xs| - 1;
      SortPermutes(xs[..n]);
      InsertPermutes(SortByKey(xs[..n]), xs[n]);
      assert xs == xs[..n] + [xs[n]];
    }
  }

  /** The entries with key `k`, in order. */
  function WithKey(xs: seq<Ranked>, k: Key): seq<Ranked> {
    if xs == [] then []
    else WithKey(xs[..|xs| - 1], k) + (if KeyOf(xs[|xs| - 1]) == k then [xs[|xs| - 1]] else [])
  }

  lemma {:induction false} WithKeyAppend(a: seq<Ranked>, b: seq<Ranked>, k: Key)
    ensures WithKey(a + b, k) == WithKey(a, k) + WithKey(b, k)
    decreases |b|
  {
    if b == [] {
      assert a + b == a;
    } else {
      var n := |b| - 1;
      assert (a + b)[..|a + b| - 1] == a + b[..n];
      WithKeyAppend(a, b[..n], k);
    }
  }

  /** Inserting adds `x` after the entries with the same key. */
  lemma {:induction false} InsertWithKey(s: seq<Ranked>, x: Ranked, k: Key)
    ensures WithKey(Insert(s, x), k) == WithKey(s, k) + (if KeyOf(x) == k then [x] else [])
  {
    if s == [] || KeyLe(KeyOf(s[|s| - 1]), KeyOf(x)) {
      WithKeyAppend(s, [x], k);
      assert WithKey([x], k) == WithKey([], k) + (if KeyOf(x) == k then [x] else []);
    } else {
      var n := |s| - 1;
      InsertWithKey(s[..n], x, k);
      WithKeyAppend(Insert(s[..n], x), [s[n]], k);
      WithKeyAppend(s[..n], [s[n]], k);
      assert s[..n] + [s[n]] == s;
      assert WithKey([s[n]], k) == WithKey([], k) + (if KeyOf(s[n]) == k then [s[n]] else []);
      assert KeyOf(x) == k ==> KeyOf(s[n]) != k;
    }
  }

  /** The sort is stable: entries with the same key keep their order. */
  lemma {:induction false} SortKeepsKeyOrder(xs: seq<Ranked>, k: Key)
    ensures WithKey(SortByKey(xs), k) == WithKey(xs, k)
  {
    if xs != [] {
      var n := |xs| - 1;
      SortKeepsKeyOrder(xs[..n], k);
      InsertWithKey(SortByKey(xs[..n]), xs[n], k);
    }
  }

  /** Inserting into a sorted sequence keeps it sorted. */
  lemma {:induction false} InsertSorted(s: seq<Ranked>, x: Ranked)
    requires SortedByKey(s)
    ensures SortedByKey(Insert(s, x))
  {
    if s != [] && !KeyLe(KeyOf(s[|s| - 1]), KeyOf(x)) {
      var n := |s| - 1;
      var init := s[..n];
      assert SortedByKey(init) by {
        forall i, j | 0 <= i < j < |init| ensures KeyLe(KeyOf(init[i]), KeyOf(init[j])) {
          assert init[i] == s[i] && init[j] == s[j];
        }
      }
      InsertSorted(init, x);
      InsertPermutes(init, x);
      var ins := Insert(init, x);
      forall i | 0 <= i < |ins| ensures KeyLe(KeyOf(ins[i]), KeyOf(s[n])) {
        assert ins[i] in multiset(ins);
        if ins[i] != x {
          assert ins[i] in multiset(init);
          var j :| 0 <= j < |init| && init[j] == ins[i];
          assert s[j] == init[j];
        }
      }
    }
  }

  /** The sort's result is ordered by key. */
  lemma {:induction false} SortSorted(xs: seq<Ranked>)
    ensures SortedByKey(SortByKey(xs))
  {
    if xs != [] {
      SortSorted(xs[..|xs| - 1]);
      InsertSorted(SortByKey(xs[..|xs| - 1]), xs[|xs| - 1]);
    }
  }

  /** The ranking puts non-excluded results first, in descending score, and is
      a stable permutation of its input. */
  lemma RankingOrder(xs: seq<Ranked>)
    ensures var r := SortByKey(xs);
      && multiset(r) == multiset(xs)
      && (forall k :: WithKey(r, k) == WithKey(xs, k))
      && (forall i, j :: 0 <= i < j < |r| && r[i].result.Excluded? ==> r[j].result.Excluded?)
      && (forall i, j :: 0 <= i < j < |r| && r[i].result.Excluded? == r[j].result.Excluded? ==>
            ScoreValue(r[i].result) >= ScoreValue(r[j].result))
  {
    SortSorted(xs);
    SortPermutes(xs);
    forall k ensures WithKey(SortByKey(xs), k) == WithKey(xs, k) { SortKeepsKeyOrder(xs, k); }
  }

  /** The loop's results before sorting: entry `i` scores solution `i` and is
      named by its `name`, or `Solution #i+1` without one. */
  function RankedList(sols: seq<Json>, feedback: Json): (r: Result<seq<Ranked>>)
    ensures r.Ok? ==> |r.value| == |sols|
  {
    if sols == [] then Ok([])
    else
      var n := |sols| - 1;
      match RankedList(sols[..n], feedback)
      case Err(e) => Err(e)
      case Ok(rs) =>
        match Entry(sols[n], n, feedback)
        case Err(e) => Err(e)
        case Ok(x) => Ok(rs + [x])
  }

  /** The entry of solution `i`. */
  function Entry(solution: Json, i: nat, feedback: Json): (r: Result<Ranked>)
    ensures r.Ok? <==> ScoreOf(solution, feedback).Ok?
    ensures r.Ok? ==> r.value == Ranked(i, NameOf(solution, i), ScoreOf(solution, feedback).value)
  {
    match ScoreOf(solution, feedback)
    case Err(e) => Err(e)
    case Ok(res) => Ok(Ranked(i, NameOf(solution, i), res))
  }

  /** `solution.get("name", f"Solution #{i+1}")`. */
  function NameOf(solution: Json, i: nat): Json {
    if solution.JObj? then GetD(solution.fields, "name", JStr("Solution #" + NatToStr(i + 1))) else JNull
  }

  /** `cmd_score_multiple` without the JSON printing. */
  function Ranking(solutions: Json, feedback: Json): Result<seq<Ranked>> {
    match Iter(solutions)
    case None => Err(TypeError)
    case Some(sols) =>
      match RankedList(sols, feedback)
      case Err(e) => Err(e)
      case Ok(rs) => Ok(SortByKey(rs))
  }

  /** Entry `i` of the unsorted results is solution `i`'s score under its name. */
  lemma {:induction false} RankedListAt(sols: seq<Json>, feedback: Json, i: nat)
    requires RankedList(sols, feedback).Ok? && i < |sols|
    ensures ScoreOf(sols[i], feedback).Ok?
    ensures RankedList(sols, feedback).value[i] == Ranked(i, NameOf(sols[i], i), ScoreOf(sols[i], feedback).value)
  {
    var n := |sols| - 1;
    if i < n {
      RankedListAt(sols[..n], feedback, i);
      assert sols[..n][i] == sols[i];
    }
  }

  /** Every solution appears in the ranking with its own index, its name and
      its score, and nothing else does. */
  lemma RankingEntries(solutions: Json, feedback: Json, i: nat)
    requires Ranking(solutions, feedback).Ok? && i < |Iter(solutions).value|
    ensures var r := Ranking(solutions, feedback).value; var sol := Iter(solutions).value[i];
      |r| == |Iter(solutions).value|
      && ScoreOf(sol, feedback).Ok? && Ranked(i, NameOf(sol, i), ScoreOf(sol, feedback).value) in r
  {
    var sols := Iter(solutions).value;
    var rs := RankedList(sols, feedback).value;
    RankedListAt(sols, feedback, i);
    SortPermutes(rs);
    assert rs[i] in multiset(rs);
  }

  /** One turn of the loop: score the solution and attach its index and name. */
  method ScoreEntry(solution: Json, i: nat, feedback: Json) returns (r: Result<Ranked>)
    ensures r == Entry(solution, i, feedback)
  {
    var scored := CalculateScore(solution, feedback);
    if scored.Err? { return Err(scored.msg); }
    var name := if solution.JObj? then GetD(solution.fields, "name", JStr("Solution #" + NatToStr(i + 1))) else JNull;
    return Ok(Ranked(i, name, scored.value));
  }

  /** The loop of `cmd_score_multiple`. */
  method ScoreAll(ss: seq<Json>, feedback: Json) returns (r: Result<seq<Ranked>>)
    ensures r == RankedList(ss, feedback)
  {
    var results: seq<Ranked> := [];
    for i := 0 to |ss|
      invariant RankedList(ss[..i], feedback) == Ok(results)
    {
      var entry := ScoreEntry(ss[i], i, feedback);
      RankedListStep(ss, feedback, i, results);
      if entry.Err? {
        RankedPrefixErr(ss, feedback, i + 1);
        return Err(entry.msg);
      }
      results := results + [entry.value];
    }
    assert ss[..|ss|] == ss;
    return Ok(results);
  }

  /** `cmd_score_multiple`: score each solution in turn, then sort. */
  method ScoreMultiple(solutions: Json, feedback: Json) returns (r: Result<seq<Ranked>>)
    ensures r == Ranking(solutions, feedback)
  {
    var sols := Iter(solutions);
    if sols.None? { return Err(TypeError); }
    var results := ScoreAll(sols.value, feedback);
    if results.Err? { return Err(results.msg); }
    return Ok(SortByKey(results.value));
  }

  /** One more solution extends the ranking by its entry, or fails with the entry's
      error. */
  lemma RankedListStep(ss: seq<Json>, feedback: Json, i: nat, results: seq<Ranked>)
    requires i < |ss| && RankedList(ss[..i], feedback) == Ok(results)
    ensures RankedList(ss[..i + 1], feedback) ==
      match Entry(ss[i], i, feedback)
      case Err(e) => Err(e)
      case Ok(x) => Ok(results + [x])
  {
    assert ss[..i + 1][..i] == ss[..i];
  }

  /** A failing solution makes the whole ranking fail with its error. */
  lemma {:induction false} RankedPrefixErr(sols: seq<Json>, feedback: Json, n: nat)
    requires n <= |sols| && RankedList(sols[..n], feedback).Err?
    ensures RankedList(sols, feedback) == RankedList(sols[..n], feedback)
    decreases |sols| - n
  {
    if n < |sols| {
      var m := |sols| - 1;
      assert sols[..n] == sols[..m][..n];
      RankedPrefixErr(sols[..m], feedback, n);
    } else {
      assert sols[..n] == sols;
    }
  }
}
