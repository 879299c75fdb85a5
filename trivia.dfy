/**
 * The trivia API: page slicing of question lists, the category-id map,
 * and the decision logic of the question, search and quiz handlers over
 * an in-memory question table.
 */
module Trivia {
  import opened Outcomes

  const QuestionsPerPage: nat := 10

  datatype Question = Question(id: int, question: string, answer: string, category: int, difficulty: int)

  datatype Category = Category(id: int, typeName: string)

  // ---------------------------------------------------------------------
  // Pagination
  // ---------------------------------------------------------------------

  /** Python's normalisation of one slice bound for a sequence of length n. */
  function SliceBound(i: int, n: nat): (b: nat)
    ensures b <= n
    ensures 0 <= i <= n ==> b == i
  {
    if i < 0 then (if i + n < 0 then 0 else i + n)
    else if i > n then n
    else i
  }

  /** Python's `s[start:end]` with step 1. */
  function PySlice<T>(s: seq<T>, start: int, end: int): (r: seq<T>)
    ensures |r| <= |s|
  {
    var lo := SliceBound(start, |s|);
    var hi := SliceBound(end, |s|);
    if lo < hi then s[lo..hi] else []
  }

  /** `[format(x) for x in selection]`. */
  function FormatAll<Q, F>(selection: seq<Q>, format: Q -> F): (r: seq<F>)
    ensures |r| == |selection|
    ensures forall i :: 0 <= i < |selection| ==> r[i] == format(selection[i])
  {
    seq(|selection|, i requires 0 <= i < |selection| => format(selection[i]))
  }

  /** paginate_questions for the requested page number. */
  function Paginate<Q, F>(selection: seq<Q>, page: int, format: Q -> F): (r: seq<F>)
    ensures |r| <= QuestionsPerPage
  {
    var start := (page - 1) * QuestionsPerPage;
    PySlice(FormatAll(selection, format), start, start + QuestionsPerPage)
  }

  /** Number of elements on page `page` (>= 1) of a list of length n. */
  function PageLength(n: nat, page: int): nat
    requires page >= 1
  {
    var start := (page - 1) * QuestionsPerPage;
    if start >= n then 0 else if n - start < QuestionsPerPage then n - start else QuestionsPerPage
  }

  /** A page from 1 on is the contiguous run starting at (page-1)*10, clipped to the list. */
  lemma PageIsSlice<Q, F>(selection: seq<Q>, page: int, format: Q -> F)
    requires page >= 1
    ensures var r := Paginate(selection, page, format);
            && |r| == PageLength(|selection|, page)
            && forall i :: 0 <= i < |r| ==> r[i] == format(selection[(page - 1) * QuestionsPerPage + i])
  {
  }

  /** A page past the end is empty. */
  lemma PagePastEndIsEmpty<Q, F>(selection: seq<Q>, page: int, format: Q -> F)
    requires page >= 1 && (page - 1) * QuestionsPerPage >= |selection|
    ensures Paginate(selection, page, format) == []
  {
  }

  /** Pages 1..k laid end to end. */
  function FirstPages<Q, F>(selection: seq<Q>, k: nat, format: Q -> F): seq<F>
  {
    if k == 0 then [] else FirstPages(selection, k - 1, format) + Paginate(selection, k, format)
  }

  /** The first n elements, or all of them when there are fewer. */
  function Upto(n: int, len: nat): (m: nat)
    ensures m <= len
  {
    if n < 0 then 0 else if n < len then n else len
  }

  /** Page k >= 1 is the formatted run between the two clipped bounds. */
  lemma PageBetween<Q, F>(selection: seq<Q>, k: nat, format: Q -> F)
    requires k >= 1
    ensures Upto((k - 1) * QuestionsPerPage, |selection|) <= Upto(k * QuestionsPerPage, |selection|)
    ensures Paginate(selection, k, format) ==
            FormatAll(selection, format)[Upto((k - 1) * QuestionsPerPage, |selection|)..Upto(k * QuestionsPerPage, |selection|)]
  {
  }

  /** Two adjacent runs of a sequence make one run. */
  lemma PrefixJoin<F>(s: seq<F>, lo: nat, hi: nat)
    requires lo <= hi <= |s|
    ensures s[..lo] + s[lo..hi] == s[..hi]
  {
  }

  /** Pages 1..k together are the first 10k formatted questions, in order, without overlap. */
  lemma {:induction false} PagesCoverInOrder<Q, F>(selection: seq<Q>, k: nat, format: Q -> F)
    ensures FirstPages(selection, k, format) == FormatAll(selection, format)[..Upto(k * QuestionsPerPage, |selection|)]
  {
    if k > 0 {
      PagesCoverInOrder(selection, k - 1, format);
      PageBetween(selection, k, format);
      PrefixJoin(FormatAll(selection, format), Upto((k - 1) * QuestionsPerPage, |selection|), Upto(k * QuestionsPerPage, |selection|));
    }
  }

  /** Python's negative slice bounds: page 0 is empty, page -1 counts back from the end. */
  lemma NonPositivePages<Q, F>(selection: seq<Q>, format: Q -> F)
    ensures Paginate(selection, 0, format) == []
    ensures |selection| >= 20 ==>
              Paginate(selection, -1, format) == FormatAll(selection, format)[|selection| - 20..|selection| - 10]
  {
  }

  // ---------------------------------------------------------------------
  // Category map
  // ---------------------------------------------------------------------

  /** No category after index i (and before `upto`) reuses its id. */
  ghost predicate LastWithId(categories: seq<Category>, i: int, upto: int)
    requires 0 <= i < upto <= |categories|
  {
    forall j :: i < j < upto ==> categories[j].id != categories[i].id
  }

  /**
   * `d` is the id -> type map of the first n categories: its keys are
   * exactly their ids, and each id maps to the type of the last of them
   * that carries it.
   */
  ghost predicate CategoryMap(categories: seq<Category>, n: int, d: map<int, string>)
    requires 0 <= n <= |categories|
  {
    && (forall i :: 0 <= i < n ==> categories[i].id in d)
    && (forall id :: id in d ==> exists i :: 0 <= i < n && categories[i].id == id)
    && (forall i :: 0 <= i < n && LastWithId(categories, i, n) ==> d[categories[i].id] == categories[i].typeName)
  }

  /** Storing category k's type under its id extends the map of the first k categories to the first k+1. */
  lemma CategoryMapStep(categories: seq<Category>, k: int, d: map<int, string>)
    requires 0 <= k < |categories| && CategoryMap(categories, k, d)
    ensures CategoryMap(categories, k + 1, d[categories[k].id := categories[k].typeName])
  {
    var d' := d[categories[k].id := categories[k].typeName];
    forall i | 0 <= i < k + 1 && LastWithId(categories, i, k + 1)
      ensures d'[categories[i].id] == categories[i].typeName
    {
      if i < k {
        assert LastWithId(categories, i, k);
      }
    }
  }

  /** create_categories_dict: id -> type, filled in list order so a later duplicate id wins. */
  method CreateCategoriesDict(categories: seq<Category>) returns (d: map<int, string>)
    ensures CategoryMap(categories, |categories|, d)
  {
    d := map[];
    for k := 0 to |categories|
      invariant CategoryMap(categories, k, d)
    {
      CategoryMapStep(categories, k, d);
      d := d[categories[k].id := categories[k].typeName];
    }
  }

  // ---------------------------------------------------------------------
  // Filters the handlers' queries express
  // ---------------------------------------------------------------------

  /** Questions whose text the search term matches (the database's ilike). */
  function Matching(questions: seq<Question>, matches: string -> bool): (r: seq<Question>)
    ensures forall q :: q in r <==> q in questions && matches(q.question)
    ensures |r| <= |questions|
  {
    if questions == [] then []
    else (if matches(questions[0].question) then [questions[0]] else []) + Matching(questions[1..], matches)
  }

  /** Questions of one category. */
  function InCategory(questions: seq<Question>, category: int): (r: seq<Question>)
    ensures forall q :: q in r <==> q in questions && q.category == category
    ensures |r| <= |questions|
  {
    if questions == [] then []
    else (if questions[0].category == category then [questions[0]] else []) + InCategory(questions[1..], category)
  }

  /** The quiz's candidates: not asked before and, unless the category is 0, of that category. */
  function QuizCandidates(questions: seq<Question>, previous: seq<int>, quizCategory: int): (r: seq<Question>)
    ensures forall q :: q in r <==> q in questions && q.id !in previous && (quizCategory != 0 ==> q.category == quizCategory)
  {
    if questions == [] then []
    else
      var q := questions[0];
      (if q.id !in previous && (quizCategory != 0 ==> q.category == quizCategory) then [q] else [])
      + QuizCandidates(questions[1..], previous, quizCategory)
  }

  /** The question table without the rows that have the given id. */
  function WithoutId(questions: seq<Question>, id: int): (r: seq<Question>)
    ensures forall q :: q in r <==> q in questions && q.id != id
  {
    if questions == [] then []
    else (if questions[0].id == id then [] else [questions[0]]) + WithoutId(questions[1..], id)
  }

  predicate HasId(questions: seq<Question>, id: int)
  {
    exists i :: 0 <= i < |questions| && questions[i].id == id
  }

  /** Every id is below the next id the database hands out. */
  ghost predicate IdsBelow(questions: seq<Question>, bound: int)
  {
    forall i :: 0 <= i < |questions| ==> questions[i].id < bound
  }

  /** Ids are unique. */
  ghost predicate UniqueIds(questions: seq<Question>)
  {
    forall i, j :: 0 <= i < j < |questions| ==> questions[i].id != questions[j].id
  }

  /** The tail of a table with unique ids has unique ids, none equal to the head's. */
  lemma UniqueTail(questions: seq<Question>)
    requires UniqueIds(questions) && questions != []
    ensures UniqueIds(questions[1..])
    ensures forall i :: 0 <= i < |questions| - 1 ==> questions[1..][i].id != questions[0].id
  {
    var rest := questions[1..];
    assert forall i :: 0 <= i < |rest| ==> rest[i] == questions[i + 1];
  }

  /** Cutting row k (k > 0) out of a table is keeping its head and cutting row k-1 out of its tail. */
  lemma CutAfterHead(questions: seq<Question>, k: int)
    requires 0 < k < |questions|
    ensures questions[..k] + questions[k + 1..] == [questions[0]] + (questions[1..][..k - 1] + questions[1..][k..])
  {
    assert questions[..k] == [questions[0]] + questions[1..][..k - 1];
    assert questions[k + 1..] == questions[1..][k..];
  }

  /** With unique ids, removing an id that is present removes exactly one row and keeps the order of the rest. */
  lemma {:induction false} WithoutIdRemovesOne(questions: seq<Question>, id: int, k: int)
    requires UniqueIds(questions)
    requires 0 <= k < |questions| && questions[k].id == id
    ensures WithoutId(questions, id) == questions[..k] + questions[k + 1..]
  {
    UniqueTail(questions);
    if k == 0 {
      WithoutIdAbsent(questions[1..], id);
      assert questions[..0] + questions[1..] == questions[1..];
    } else {
      assert questions[0].id != id;
      WithoutIdRemovesOne(questions[1..], id, k - 1);
      CutAfterHead(questions, k);
    }
  }

  /** Removing an id that is absent changes nothing. */
  lemma {:induction false} WithoutIdAbsent(questions: seq<Question>, id: int)
    requires forall i :: 0 <= i < |questions| ==> questions[i].id != id
    ensures WithoutId(questions, id) == questions
  {
    if questions != [] {
      WithoutIdAbsent(questions[1..], id);
      assert [questions[0]] + questions[1..] == questions;
    }
  }

  /** Deleting a present id keeps the ids unique and below the bound. */
  lemma DeletionKeepsIds(questions: seq<Question>, id: int, k: int, bound: int)
    requires UniqueIds(questions) && 0 <= k < |questions| && questions[k].id == id
    requires IdsBelow(questions, bound)
    ensures WithoutId(questions, id) == questions[..k] + questions[k + 1..]
    ensures UniqueIds(WithoutId(questions, id))
    ensures IdsBelow(WithoutId(questions, id), bound)
  {
    WithoutIdRemovesOne(questions, id, k);
    var rest := WithoutId(questions, id);
    assert |rest| == |questions| - 1;
    forall i | 0 <= i < |rest| ensures rest[i] == questions[if i < k then i else i + 1] {
      if i < k {
        assert rest[i] == questions[..k][i];
      } else {
        assert rest[i] == questions[k + 1..][i - k];
      }
    }
    forall i, j | 0 <= i < j < |rest| ensures rest[i].id != rest[j].id {
      assert rest[i] == questions[if i < k then i else i + 1];
      assert rest[j] == questions[if j < k then j else j + 1];
    }
  }

  // ---------------------------------------------------------------------
  // The handlers over the question and category tables
  // ---------------------------------------------------------------------

  /** A page of questions with the total number of questions it was cut from. */
  datatype QuestionPage<F> = QuestionPage(questions: seq<F>, totalQuestions: nat, categories: map<int, string>)

  class TriviaDb {
    var questions: seq<Question>
    var categories: seq<Category>
    var nextId: int   // the id the database assigns to the next inserted question

    ghost predicate Valid()
      reads this
    {
      && UniqueIds(questions)
      && IdsBelow(questions, nextId)
    }

    constructor (questions0: seq<Question>, categories0: seq<Category>, nextId0: int)
      requires UniqueIds(questions0)
      requires IdsBelow(questions0, nextId0)
      ensures Valid()
      ensures questions == questions0 && categories == categories0 && nextId == nextId0
    {
      questions, categories, nextId := questions0, categories0, nextId0;
    }

    /** GET /categories: 404 without categories, otherwise the id -> type map. */
    method GetCategories() returns (r: Result<map<int, string>, int>)
      ensures r == Failure(404) <==> categories == []
      ensures r.Success? || r == Failure(404)
      ensures r.Success? ==> CategoryMap(categories, |categories|, r.value)
    {
      if |categories| == 0 {
        return Failure(404);
      }
      var d := CreateCategoriesDict(categories);
      r := Success(d);
    }

    /** GET /questions: 404 without questions or without categories, otherwise a page and the full count. */
    method GetQuestions<F>(page: int, format: Question -> F) returns (r: Result<QuestionPage<F>, int>)
      ensures r == Failure(404) <==> questions == [] || categories == []
      ensures r.Success? || r == Failure(404)
      ensures r.Success? ==>
                && r.value.questions == Paginate(questions, page, format)
                && r.value.totalQuestions == |questions|
                && CategoryMap(categories, |categories|, r.value.categories)
    {
      if |questions| == 0 {
        return Failure(404);
      } else if |categories| == 0 {
        return Failure(404);
      }
      var d := CreateCategoriesDict(categories);
      r := Success(QuestionPage(Paginate(questions, page, format), |questions|, d));
    }

    /** DELETE /question/<id>: 422 for an unknown id, otherwise that row is removed and the id echoed. */
    method DeleteQuestion(id: int) returns (r: Result<int, int>)
      requires Valid()
      modifies this
      ensures Valid()
      ensures r == Failure(422) <==> !HasId(old(questions), id)
      ensures HasId(old(questions), id) ==> r == Success(id)
      ensures r.Failure? ==> questions == old(questions)
      ensures r.Success? ==>
                && r.value == id
                && exists k :: && 0 <= k < |old(questions)| && old(questions)[k].id == id
                               && questions == old(questions)[..k] + old(questions)[k + 1..]
      ensures categories == old(categories) && nextId == old(nextId)
    {
      if !HasId(questions, id) {
        return Failure(422);
      }
      var k :| 0 <= k < |questions| && questions[k].id == id;
      DeletionKeepsIds(questions, id, k, nextId);
      questions := WithoutId(questions, id);
      r := Success(id);
    }

    /** POST /question: insert a new row under the next id and report that id. */
    method CreateQuestion(question: string, answer: string, difficulty: int, category: int) returns (created: int)
      requires Valid()
      modifies this
      ensures Valid()
      ensures created == old(nextId) && nextId == old(nextId) + 1
      ensures questions == old(questions) + [Question(created, question, answer, category, difficulty)]
      ensures categories == old(categories)
    {
      created := nextId;
      questions := questions + [Question(created, question, answer, category, difficulty)];
      nextId := nextId + 1;
    }

    /** POST /questions/search: 404 when nothing matches, otherwise a page and the number of matches. */
    method SearchQuestions<F>(matches: string -> bool, page: int, format: Question -> F)
      returns (r: Result<(seq<F>, nat), int>)
      ensures r == Failure(404) <==> forall q :: q in questions ==> !matches(q.question)
      ensures r.Success? || r == Failure(404)
      ensures r.Success? ==>
                && r.value.0 == Paginate(Matching(questions, matches), page, format)
                && r.value.1 == |Matching(questions, matches)|
                && 0 < r.value.1 <= |questions|
    {
      var suggestions := Matching(questions, matches);
      if suggestions == [] {
        return Failure(404);
      }
      assert suggestions[0] in suggestions;
      r := Success((Paginate(suggestions, page, format), |suggestions|));
    }

    /** GET /category/<id>/questions: 404 when the category has no question, otherwise a page and the count. */
    method QuestionsByCategory<F>(category: int, page: int, format: Question -> F)
      returns (r: Result<(seq<F>, nat), int>)
      ensures r == Failure(404) <==> forall q :: q in questions ==> q.category != category
      ensures r.Success? || r == Failure(404)
      ensures r.Success? ==>
                && r.value.0 == Paginate(InCategory(questions, category), page, format)
                && r.value.1 == |InCategory(questions, category)|
    {
      var selected := InCategory(questions, category);
      if selected == [] {
        return Failure(404);
      }
      assert selected[0] in selected;
      r := Success((Paginate(selected, page, format), |selected|));
    }

    /**
     * POST /quizzes: some question not asked before, of the quiz category
     * unless it is 0; None exactly when no such question remains.
     */
    method PlayQuiz(previous: seq<int>, quizCategory: int) returns (next: Option<Question>)
      ensures next.None? <==>
                forall q :: q in questions ==> q.id in previous || (quizCategory != 0 && q.category != quizCategory)
      ensures next.Some? ==>
                && next.value in questions
                && next.value.id !in previous
                && (quizCategory != 0 ==> next.value.category == quizCategory)
    {
      var suggestions := QuizCandidates(questions, previous, quizCategory);
      if suggestions == [] {
        next := None;
      } else {
        assert suggestions[0] in suggestions;
        var q :| q in suggestions;
        next := Some(q);
      }
    }
  }
}
