/**
 * The three-step task creation dialog: next and previous between the
 * collection, filter and template steps, submission from the last step,
 * and the editable comment and message template lists. Form validation is
 * an input.
 */
module CreateTaskModal {
  import opened Base

  /** 采集任务, 过滤条件 and 回复模板. */
  datatype Step = Collect | Filters | Templates

  /** What pressing next does: move to a step, submit the form, or stay after a validation failure. */
  datatype NextOutcome = MoveTo(step: Step) | Submit | Stay

  /** Next validates first; it then advances, or submits from the last step. */
  function Next(step: Step, valid: bool): (r: NextOutcome)
    ensures !valid ==> r == Stay
    ensures valid && step != Templates ==> r.MoveTo? && Index(r.step) == Index(step) + 1
    ensures valid && step == Templates ==> r == Submit
  {
    if !valid then Stay
    else match step
      case Collect => MoveTo(Filters)
      case Filters => MoveTo(Templates)
      case Templates => Submit
  }

  /** Previous steps back once, and does nothing on the first step. */
  function Prev(step: Step): (r: Step)
    ensures step == Collect ==> r == Collect
    ensures step != Collect ==> Index(r) == Index(step) - 1
  {
    match step
    case Collect => Collect
    case Filters => Collect
    case Templates => Filters
  }

  /** The position of a step in the step bar. */
  function Index(step: Step): (r: nat)
    ensures r < 3
  {
    match step
    case Collect => 0
    case Filters => 1
    case Templates => 2
  }

  /** Previous undoes a successful next, and next undoes previous away from the first step. */
  lemma NextPrevInverse(step: Step)
    ensures step != Templates ==> Prev(Next(step, true).step) == step
    ensures step != Collect ==> Next(Prev(step), true) == MoveTo(step)
  {
  }

  datatype TemplateItem = TemplateItem(id: string, content: string, imageUrl: Option<string>)

  /** The lists the dialog opens with: three empty comment templates and two empty message templates. */
  const INITIAL_COMMENT_TEMPLATES := [TemplateItem("1", "", None), TemplateItem("2", "", None), TemplateItem("3", "", None)]
  const INITIAL_MESSAGE_TEMPLATES := [TemplateItem("1", "", None), TemplateItem("2", "", None)]

  /** 新增 appends one empty template; the id comes from the clock. */
  function AddTemplate(templates: seq<TemplateItem>, id: string): (r: seq<TemplateItem>)
    ensures |r| == |templates| + 1
    ensures r[..|templates|] == templates
    ensures r[|templates|].content == "" && r[|templates|].imageUrl.None? && r[|templates|].id == id
  {
    templates + [TemplateItem(id, "", None)]
  }

  /** Typing into a template changes that template's content only. */
  function EditContent(templates: seq<TemplateItem>, index: nat, content: string): (r: seq<TemplateItem>)
    requires index < |templates|
    ensures |r| == |templates|
    ensures r[index] == templates[index].(content := content)
    ensures forall i :: 0 <= i < |templates| && i != index ==> r[i] == templates[i]
  {
    templates[index := templates[index].(content := content)]
  }

  /** Picking an image for a message template sets that template's image only. */
  function SetImage(templates: seq<TemplateItem>, index: nat, url: string): (r: seq<TemplateItem>)
    requires index < |templates|
    ensures |r| == |templates|
    ensures r[index] == templates[index].(imageUrl := Some(url))
    ensures forall i :: 0 <= i < |templates| && i != index ==> r[i] == templates[i]
  {
    templates[index := templates[index].(imageUrl := Some(url))]
  }

  /** Editing a freshly added template touches none of the earlier ones. */
  lemma AddThenEdit(templates: seq<TemplateItem>, id: string, content: string)
    ensures var r := EditContent(AddTemplate(templates, id), |templates|, content);
      r[..|templates|] == templates && r[|templates|] == TemplateItem(id, content, None)
  {
    var added := AddTemplate(templates, id);
    var r := EditContent(added, |templates|, content);
    assert forall i :: 0 <= i < |templates| ==> r[i] == templates[i];
  }
}
