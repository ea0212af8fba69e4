/**
 * The regulatory questions of the case studies and the label-to-key map the
 * tool and method pages use to turn a selected label into a record field.
 */
module RegQuestions {
  import opened Wrappers

  /** (key, label) for every regulatory question, in declaration order. */
  const REG_QUESTIONS: seq<(string, string)> := [
    ("reg_q_1a", "Kidney Case Study (a)"),
    ("reg_q_1b", "Kidney Case Study (b)"),
    ("reg_q_2a", "Parkinson Case Study (a)"),
    ("reg_q_2b", "Parkinson Case Study (b)"),
    ("reg_q_3a", "Thyroid Case Study (a)"),
    ("reg_q_3b", "Thyroid Case Study (b)")
  ]

  /** No two entries share a label. */
  predicate DistinctLabels(ps: seq<(string, string)>) {
    forall i, j :: 0 <= i < j < |ps| ==> ps[i].1 != ps[j].1
  }

  /**
   * `{v["label"]: k for k, v in questions.items()}`: each label maps to its
   * key; a later entry with the same label would win.
   */
  function InvertLabels(ps: seq<(string, string)>): (m: map<string, string>)
    ensures forall i :: 0 <= i < |ps| ==> ps[i].1 in m
    ensures forall l :: l in m ==> exists i :: 0 <= i < |ps| && ps[i] == (m[l], l)
  {
    if ps == [] then map[]
    else
      var init := InvertLabels(ps[..|ps| - 1]);
      assert forall i :: 0 <= i < |ps| - 1 ==> ps[..|ps| - 1][i] == ps[i];
      init[ps[|ps| - 1].1 := ps[|ps| - 1].0]
  }

  /** When labels are distinct the inversion is exact: every label finds its own key. */
  lemma {:induction false} InvertLabelsExact(ps: seq<(string, string)>)
    requires DistinctLabels(ps)
    ensures forall i :: 0 <= i < |ps| ==> InvertLabels(ps)[ps[i].1] == ps[i].0
  {
    if ps != [] {
      var init := ps[..|ps| - 1];
      assert DistinctLabels(init) by {
        assert forall i :: 0 <= i < |init| ==> init[i] == ps[i];
      }
      InvertLabelsExact(init);
      forall i | 0 <= i < |ps| - 1
        ensures InvertLabels(ps)[ps[i].1] == ps[i].0
      {
        assert init[i] == ps[i];
        assert ps[i].1 != ps[|ps| - 1].1;
      }
    }
  }

  /** The six case-study labels are pairwise different. */
  lemma RegLabelsDistinct()
    ensures DistinctLabels(REG_QUESTIONS)
  {
    forall i, j | 0 <= i < j < |REG_QUESTIONS|
      ensures REG_QUESTIONS[i].1 != REG_QUESTIONS[j].1
    {
      var a, b := REG_QUESTIONS[i].1, REG_QUESTIONS[j].1;
      assert a[0] != b[0] || a[|a| - 2] != b[|b| - 2];
    }
  }

  /** The map the pages build from REG_QUESTIONS. */
  function LabelToKey(): map<string, string> {
    InvertLabels(REG_QUESTIONS)
  }

  /**
   * `field = reg_questions.get(question); if field: ...`: the record field a
   * selected label stands for in the label map, or None when the label is
   * unknown.
   */
  function QuestionField(labels: map<string, string>, question: string): Option<string> {
    if question in labels && labels[question] != "" then Some(labels[question]) else None
  }

  /** For distinct labels and non-empty keys, a label finds a field exactly when it is listed, and its own key. */
  lemma InvertedField(ps: seq<(string, string)>, question: string)
    requires DistinctLabels(ps) && forall i :: 0 <= i < |ps| ==> ps[i].0 != ""
    ensures QuestionField(InvertLabels(ps), question).Some? <==> exists i :: 0 <= i < |ps| && ps[i].1 == question
    ensures forall i :: 0 <= i < |ps| && ps[i].1 == question ==> QuestionField(InvertLabels(ps), question) == Some(ps[i].0)
  {
    InvertLabelsExact(ps);
  }

  /** Every case-study key is non-empty. */
  lemma RegKeysNonEmpty()
    ensures forall i :: 0 <= i < |REG_QUESTIONS| ==> REG_QUESTIONS[i].0 != ""
  {
    forall i | 0 <= i < |REG_QUESTIONS|
      ensures REG_QUESTIONS[i].0 != ""
    {
      assert |REG_QUESTIONS[i].0| == 8;
    }
  }

  /** Exactly the six case-study labels are known, and each yields its own key. */
  lemma QuestionFieldSpec(question: string)
    ensures QuestionField(LabelToKey(), question).Some? <==> exists i :: 0 <= i < |REG_QUESTIONS| && REG_QUESTIONS[i].1 == question
    ensures forall i :: 0 <= i < |REG_QUESTIONS| && REG_QUESTIONS[i].1 == question ==>
              QuestionField(LabelToKey(), question) == Some(REG_QUESTIONS[i].0)
  {
    RegLabelsDistinct();
    RegKeysNonEmpty();
    InvertedField(REG_QUESTIONS, question);
  }
}
