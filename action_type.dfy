/** The four actions a user may attempt on a record. */
module ActionTypes {
  import Text

  datatype ActionType = Create | View | Modify | Approve
  {
    /** `toString`: the name fixed for the constant when it is created. */
    function Name(): (s: string)
      ensures s != []
    {
      match this
      case Create => "Create"
      case View => "View"
      case Modify => "Modify"
      case Approve => "Approve"
    }
  }

  /** Different actions have different names, so a name identifies its action. */
  lemma NamesDistinct(a: ActionType, b: ActionType)
    ensures a.Name() == b.Name() <==> a == b
  {
    if a != b {
      NamesDiffer(a, b);
    }
  }

  /** Each pair of distinct names already differs in its first letter. */
  lemma NamesDiffer(a: ActionType, b: ActionType)
    requires a != b
    ensures a.Name()[0] != b.Name()[0]
  {
  }

  /** The lower-case names of the two actions that carry a capability scope. */
  lemma LowerCaseNames()
    ensures Text.ToLower(View.Name()) == "view"
    ensures Text.ToLower(Modify.Name()) == "modify"
  {
  }
}
