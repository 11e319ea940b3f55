/**
 * The summary table of an assessment
 * (client/src/app/pages/applications/application-review/components/application-assessment-summary-table/application-assessment-summary-table.tsx):
 * one row per question of the questionnaire, carrying the answer checked for
 * it and that answer's risk, ordered by category and then by question; the
 * risk filter category; the sort vector; and the rendered rows.
 */
module AssessmentSummaryTable {
  import opened Common

  datatype Risk = Green | Amber | Red | Unknown

  /** The text of a risk as the hub sends it. */
  function RiskText(risk: Risk): string
  {
    match risk
    case Green => "GREEN"
    case Amber => "AMBER"
    case Red => "RED"
    case Unknown => "UNKNOWN"
  }

  datatype QuestionOption = QuestionOption(option: string, risk: Risk, checked: bool)

  datatype Question = Question(order: int, question: string, options: seq<QuestionOption>)

  datatype Category = Category(order: int, title: string, questions: seq<Question>)

  /** A row of the table. */
  datatype TableItem = TableItem(answerValue: string, riskValue: Risk, category: Category, question: Question)

  // ---------------------------------------------------------------------------
  // Building the rows

  /** `question.options.find((q) => q.checked === true)` */
  function FirstChecked(options: seq<QuestionOption>): (r: Option<QuestionOption>)
    ensures r.None? <==> forall i :: 0 <= i < |options| ==> !options[i].checked
    ensures r.Some? ==> r.value.checked && r.value in options
    ensures r.Some? ==> exists i :: 0 <= i < |options| && options[i] == r.value &&
                                  forall j :: 0 <= j < i ==> !options[j].checked
  {
    Find(options, (o: QuestionOption) => o.checked)
  }

  /** The row of one question: the first checked option's text and risk, or "" and UNKNOWN. */
  function MakeItem(category: Category, question: Question): (item: TableItem)
    ensures item.category == category && item.question == question
    ensures FirstChecked(question.options).None? ==> item.answerValue == "" && item.riskValue == Unknown
    ensures FirstChecked(question.options).Some? ==>
      item.answerValue == FirstChecked(question.options).value.option &&
      item.riskValue == FirstChecked(question.options).value.risk
  {
    var checkedOption := FirstChecked(question.options);
    TableItem(
      if checkedOption.Some? then checkedOption.value.option else "",
      if checkedOption.Some? then checkedOption.value.risk else Unknown,
      category,
      question)
  }

  /** A row is well formed when its answer and risk are those its question's options give. */
  predicate WellFormed(item: TableItem)
  {
    item == MakeItem(item.category, item.question)
  }

  /** The rows of one category, in question order of the questionnaire. */
  function CategoryItems(category: Category): (items: seq<TableItem>)
    ensures |items| == |category.questions|
    ensures forall i :: 0 <= i < |items| ==> items[i] == MakeItem(category, category.questions[i])
  {
    seq(|category.questions|, i requires 0 <= i < |category.questions| => MakeItem(category, category.questions[i]))
  }

  /** `categories.map(...).flatMap((f) => f)`: the rows of all categories, category after category. */
  function Items(categories: seq<Category>): (items: seq<TableItem>)
    ensures forall item :: item in items ==> item.category in categories && item.question in item.category.questions
    ensures forall c, q :: c in categories && q in c.questions ==> MakeItem(c, q) in items
  {
    if categories == [] then []
    else
      var first := CategoryItems(categories[0]);
      var rest := Items(categories[1..]);
      forall q | q in categories[0].questions
        ensures MakeItem(categories[0], q) in first
      {
        var j :| 0 <= j < |categories[0].questions| && categories[0].questions[j] == q;
        assert first[j] == MakeItem(categories[0], q);
      }
      forall c | c in categories[1..]
        ensures c in categories
      {
      }
      first + rest
  }

  /** The number of questions of the questionnaire. */
  function QuestionCount(categories: seq<Category>): nat
  {
    if categories == [] then 0 else |categories[0].questions| + QuestionCount(categories[1..])
  }

  lemma {:induction false} ItemsCount(categories: seq<Category>)
    ensures |Items(categories)| == QuestionCount(categories)
  {
    if categories != [] {
      ItemsCount(categories[1..]);
    }
  }

  lemma {:induction false} ItemsWellFormed(categories: seq<Category>)
    ensures forall item :: item in Items(categories) ==> WellFormed(item)
  {
    if categories != [] {
      ItemsWellFormed(categories[1..]);
      assert forall item :: item in CategoryItems(categories[0]) ==> WellFormed(item);
    }
  }

  // ---------------------------------------------------------------------------
  // Ordering

  /** The comparator's order: by category order, then by question order. */
  predicate Before(a: TableItem, b: TableItem)
  {
    a.category.order < b.category.order ||
    (a.category.order == b.category.order && a.question.order < b.question.order)
  }

  predicate SameKey(a: TableItem, b: TableItem)
  {
    a.category.order == b.category.order && a.question.order == b.question.order
  }

  predicate Sorted(s: seq<TableItem>)
  {
    forall i, j :: 0 <= i < j < |s| ==> !Before(s[j], s[i])
  }

  /**
   * Inserts `x`, which came before every element of `s`, in front of the first
   * element that does not sort before it: the step of a stable sort.
   */
  function Insert(x: TableItem, s: seq<TableItem>): (r: seq<TableItem>)
    ensures |r| == |s| + 1
    ensures multiset(r) == multiset(s) + multiset{x}
  {
    if s == [] || !Before(s[0], x) then
      [x] + s
    else
      assert s == [s[0]] + s[1..];
      [s[0]] + Insert(x, s[1..])
  }

  lemma {:induction false} InsertSorted(x: TableItem, s: seq<TableItem>)
    requires Sorted(s)
    ensures Sorted(Insert(x, s))
  {
    if s != [] && Before(s[0], x) {
      var rest := Insert(x, s[1..]);
      InsertSorted(x, s[1..]);
      assert s == [s[0]] + s[1..];
      forall k | 0 <= k < |rest|
        ensures !Before(rest[k], s[0])
      {
        assert rest[k] in multiset(s[1..]) + multiset{x};
        if rest[k] != x {
          assert rest[k] in s[1..];
          var j :| 0 <= j < |s[1..]| && s[1..][j] == rest[k];
          assert s[j + 1] == rest[k];
        }
      }
      var r := [s[0]] + rest;
      assert forall i :: 0 < i < |r| ==> r[i] == rest[i - 1];
    }
  }

  /** `.sort(comparator)`: Array.prototype.sort is stable, so equal keys keep their order. */
  function SortItems(s: seq<TableItem>): (r: seq<TableItem>)
    ensures |r| == |s|
    ensures multiset(r) == multiset(s)
    ensures Sorted(r)
  {
    if s == [] then [] else
      assert s == [s[0]] + s[1..];
      InsertSorted(s[0], SortItems(s[1..]));
      Insert(s[0], SortItems(s[1..]))
  }

  /** The items of `s` whose key equals that of `key`, in order. */
  function WithKey(s: seq<TableItem>, key: TableItem): seq<TableItem>
  {
    if s == [] then []
    else if SameKey(s[0], key) then [s[0]] + WithKey(s[1..], key)
    else WithKey(s[1..], key)
  }

  lemma {:induction false} InsertKeepsKeyOrder(x: TableItem, s: seq<TableItem>, key: TableItem)
    ensures WithKey(Insert(x, s), key) == if SameKey(x, key) then [x] + WithKey(s, key) else WithKey(s, key)
  {
    if s == [] || !Before(s[0], x) {
      assert ([x] + s)[1..] == s;
    } else {
      InsertKeepsKeyOrder(x, s[1..], key);
      assert ([s[0]] + Insert(x, s[1..]))[1..] == Insert(x, s[1..]);
    }
  }

  /** Stability: the rows sharing a (category order, question order) key keep their questionnaire order. */
  lemma {:induction false} SortIsStable(s: seq<TableItem>, key: TableItem)
    ensures WithKey(SortItems(s), key) == WithKey(s, key)
  {
    if s != [] {
      SortIsStable(s[1..], key);
      InsertKeepsKeyOrder(s[0], SortItems(s[1..]), key);
    }
  }

  /** `tableItems`: one well-formed row per question, ordered by category order then question order. */
  function TableItems(categories: seq<Category>): (r: seq<TableItem>)
    ensures |r| == QuestionCount(categories)
    ensures multiset(r) == multiset(Items(categories))
    ensures Sorted(r)
    ensures forall item :: item in r ==> WellFormed(item)
  {
    ItemsCount(categories);
    ItemsWellFormed(categories);
    var r := SortItems(Items(categories));
    assert forall item :: item in r ==> item in multiset(Items(categories));
    r
  }

  // ---------------------------------------------------------------------------
  // Risk filter and sort values

  /** The options of the risk filter: key and label. */
  const RiskOptions: seq<(string, string)> :=
    [("GREEN", "Low"), ("AMBER", "Medium"), ("RED", "High"), ("UNKNOWN", "Unknown")]

  /**
   * `item.riskValue || ""`: the key of the row's own risk option, so choosing
   * "Low" keeps the green rows, "Medium" the amber ones, and so on.
   */
  function RiskFilterValue(item: TableItem): (value: string)
    ensures exists i :: 0 <= i < |RiskOptions| && RiskOptions[i].0 == value
    ensures item.riskValue == Green <==> value == RiskOptions[0].0
    ensures item.riskValue == Amber <==> value == RiskOptions[1].0
    ensures item.riskValue == Red <==> value == RiskOptions[2].0
    ensures item.riskValue == Unknown <==> value == RiskOptions[3].0
  {
    var v := RiskText(item.riskValue);
    assert RiskOptions[0].0 == "GREEN" && RiskOptions[1].0 == "AMBER";
    assert RiskOptions[2].0 == "RED" && RiskOptions[3].0 == "UNKNOWN";
    assert |RiskText(Amber)| == 5 && |RiskText(Green)| == 5;
    assert RiskText(Amber)[0] != RiskText(Green)[0];
    if v != "" then v else ""
  }

  /** Each risk has exactly one option, so the single-select filter can pick out any risk and nothing else. */
  lemma RiskOptionsAreExact(a: TableItem, b: TableItem)
    ensures RiskFilterValue(a) == RiskFilterValue(b) <==> a.riskValue == b.riskValue
  {
    assert |RiskText(Amber)| == 5 && |RiskText(Green)| == 5;
    assert RiskText(Amber)[0] != RiskText(Green)[0];
  }

  /**
   * `getSortValues`: category title, question text, answer and the risk's
   * sort factor (taken from the risk table, which is a parameter here), each
   * `|| ""`.
   */
  function SortValues(item: TableItem, sortFactor: Risk -> int): (r: seq<SortValue>)
    ensures |r| == 4
    ensures forall i :: 0 <= i < 4 ==> Truthy(r[i]) || r[i] == SText("")
    ensures r[0] == SText(item.category.title) && r[1] == SText(item.question.question)
    ensures r[2] == SText(item.answerValue)
    ensures sortFactor(item.riskValue) != 0 ==> r[3] == SNum(sortFactor(item.riskValue))
    ensures sortFactor(item.riskValue) == 0 ==> r[3] == SText("")
  {
    [ SText(if item.category.title != "" then item.category.title else ""),
      SText(if item.question.question != "" then item.question.question else ""),
      SText(if item.answerValue != "" then item.answerValue else ""),
      if sortFactor(item.riskValue) != 0 then SNum(sortFactor(item.riskValue)) else SText("") ]
  }

  // ---------------------------------------------------------------------------
  // Rendering

  /** The cells of a rendered row: category title, question, answer, risk label. */
  datatype Row = Row(categoryTitle: string, question: string, answer: string, risk: Risk)

  function RowOf(item: TableItem): Row
  {
    Row(item.category.title, item.question.question, item.answerValue, item.riskValue)
  }

  /** The rows pushed for the current page, one per item, in page order. */
  method BuildRows(currentPageItems: seq<TableItem>) returns (rows: seq<Row>)
    ensures |rows| == |currentPageItems|
    ensures forall i :: 0 <= i < |rows| ==> rows[i] == RowOf(currentPageItems[i])
  {
    rows := [];
    var i := 0;
    while i < |currentPageItems|
      invariant 0 <= i <= |currentPageItems|
      invariant |rows| == i
      invariant forall k :: 0 <= k < i ==> rows[k] == RowOf(currentPageItems[k])
    {
      var item := currentPageItems[i];
      rows := rows + [Row(item.category.title, item.question.question, item.answerValue, item.riskValue)];
      i := i + 1;
    }
  }
}
