/** The quiz panel of the client: the question-type tab filter and the
    resolution of the field aliases a generated question may use. */
module Questions {
  import opened Wrappers
  import opened Seqs

  /** A quiz question as the backend returns it. Every field may be absent;
      the question text has three accepted names, the choices two, and the
      explanation two. */
  datatype Question = Question(
    qtype: Option<string>,
    stem: Option<string>,
    question: Option<string>,
    text: Option<string>,
    choices: Option<seq<string>>,
    options: Option<seq<string>>,
    answer: Option<string>,
    rationale: Option<string>,
    explanation: Option<string>)

  /** The two tabs of the quiz panel ('mcq' and 'short'). */
  datatype Tab = McqTab | ShortTab

  /** The mcq tab shows questions whose type is exactly "mcq"; the other tab
      shows every other question, an absent type included. */
  predicate Shows(tab: Tab, q: Question) {
    if tab == McqTab then q.qtype == Some("mcq") else q.qtype != Some("mcq")
  }

  /** `questions.filter(...)` for the selected tab. */
  function Visible(qs: seq<Question>, tab: Tab): seq<Question> {
    Filter(qs, q => Shows(tab, q))
  }

  /** The tab shows exactly the questions of its kind, each as often as the
      list holds it, in their order. */
  lemma VisibleContents(qs: seq<Question>, tab: Tab)
    ensures forall q :: q in Visible(qs, tab) <==> q in qs && Shows(tab, q)
    ensures forall q :: Shows(tab, q) ==> multiset(Visible(qs, tab))[q] == multiset(qs)[q]
    ensures forall a, b :: qs == a + b ==> Visible(qs, tab) == Visible(a, tab) + Visible(b, tab)
  {
    FilterContents(qs, q => Shows(tab, q));
    forall a, b | qs == a + b
      ensures Visible(qs, tab) == Visible(a, tab) + Visible(b, tab)
    {
      FilterAppend(a, b, q => Shows(tab, q));
    }
  }

  /** The two tabs partition the questions: together they show every
      question exactly once. */
  lemma TabsPartition(qs: seq<Question>)
    ensures |Visible(qs, McqTab)| + |Visible(qs, ShortTab)| == |qs|
    ensures multiset(Visible(qs, McqTab)) + multiset(Visible(qs, ShortTab)) == multiset(qs)
  {
    FilterPartition(qs, q => Shows(McqTab, q), q => Shows(ShortTab, q));
  }

  /** JavaScript truthiness of a string field: present and non-empty. */
  predicate Truthy(v: Option<string>) {
    v.Some? && v.value != ""
  }

  /** `c0 || c1 || ... || fallback` over string fields: the first truthy
      candidate, or the fallback when none is. */
  function FirstTruthy(candidates: seq<Option<string>>, fallback: string): (r: string)
    ensures (forall k :: 0 <= k < |candidates| ==> !Truthy(candidates[k])) ==> r == fallback
    ensures forall k :: 0 <= k < |candidates| && Truthy(candidates[k]) ==>
      (exists j :: 0 <= j < k && Truthy(candidates[j])) || r == candidates[k].value
  {
    if candidates == [] then fallback
    else if Truthy(candidates[0]) then candidates[0].value
    else
      var r := FirstTruthy(candidates[1..], fallback);
      assert forall k :: 0 <= k < |candidates| && Truthy(candidates[k]) ==>
          (exists j :: 0 <= j < k && Truthy(candidates[j])) || r == candidates[k].value by {
        forall k | 0 <= k < |candidates| && Truthy(candidates[k])
          ensures (exists j :: 0 <= j < k && Truthy(candidates[j])) || r == candidates[k].value
        {
          assert k >= 1 && candidates[1..][k - 1] == candidates[k];
          if exists j :: 0 <= j < k - 1 && Truthy(candidates[1..][j]) {
            var j :| 0 <= j < k - 1 && Truthy(candidates[1..][j]);
            assert candidates[1..][j] == candidates[j + 1];
          }
        }
      }
      r
  }

  const NoQuestionText := "문제 내용이 없습니다."
  const NoExplanation := "해설이 없습니다."

  /** The displayed question: stem, else question, else text, else a notice. */
  function DisplayText(q: Question): (r: string)
    ensures Truthy(q.stem) ==> r == q.stem.value
    ensures !Truthy(q.stem) && Truthy(q.question) ==> r == q.question.value
    ensures !Truthy(q.stem) && !Truthy(q.question) && Truthy(q.text) ==> r == q.text.value
    ensures !Truthy(q.stem) && !Truthy(q.question) && !Truthy(q.text) ==> r == NoQuestionText
  {
    var c := [q.stem, q.question, q.text];
    assert c[0] == q.stem && c[1] == q.question && c[2] == q.text;
    FirstTruthy(c, NoQuestionText)
  }

  /** The displayed explanation: rationale, else explanation, else a notice. */
  function ExplanationText(q: Question): (r: string)
    ensures Truthy(q.rationale) ==> r == q.rationale.value
    ensures !Truthy(q.rationale) && Truthy(q.explanation) ==> r == q.explanation.value
    ensures !Truthy(q.rationale) && !Truthy(q.explanation) ==> r == NoExplanation
  {
    var c := [q.rationale, q.explanation];
    assert c[0] == q.rationale && c[1] == q.explanation;
    FirstTruthy(c, NoExplanation)
  }

  /** `q.choices || q.options`: an array is truthy even when empty, so a
      present `choices` list always wins over `options`. */
  function ChoicesOf(q: Question): (r: Option<seq<string>>)
    ensures q.choices.Some? ==> r == q.choices
    ensures q.choices.None? ==> r == q.options
  {
    if q.choices.Some? then q.choices else q.options
  }
}
