/**
 * The schema registry: the closed set of record kinds, each with its display
 * name and its ordered, fixed list of columns.
 */
module RecordTypes {
  import opened Columns
  import Text

  datatype RecordType =
    | PersonalDetails
    | InitialEmploymentDetails
    | AnnualReview
    | SalaryIncrease
    | Promotion
    | Probation
    | Termination
    | Employee
  {
    /** `toString`: the display name given to the constant. */
    function ToString(): string {
      match this
      case PersonalDetails => "Personal Details"
      case InitialEmploymentDetails => "Initial Employment Details"
      case AnnualReview => "Annual Review"
      case SalaryIncrease => "Salary Increase"
      case Promotion => "Promotion"
      case Probation => "Probation"
      case Termination => "Termination"
      case Employee => "Employee"
    }

    /** `name()`: the identifier of the enum constant itself. */
    function Name(): string {
      match this
      case PersonalDetails => "PersonalDetails"
      case InitialEmploymentDetails => "InitialEmploymentDetails"
      case AnnualReview => "AnnualReview"
      case SalaryIncrease => "SalaryIncrease"
      case Promotion => "Promotion"
      case Probation => "Probation"
      case Termination => "Termination"
      case Employee => "Employee"
    }

    /** `getColumns`: the kind's columns in their canonical order. */
    function Columns(): seq<Column> {
      match this
      case PersonalDetails => PersonalDetailsColumns
      case InitialEmploymentDetails => InitialEmploymentDetailsColumns
      case AnnualReview => AnnualReviewColumns
      case SalaryIncrease => SalaryIncreaseColumns
      case Promotion => PromotionColumns
      case Probation => ProbationColumns
      case Termination => TerminationColumns
      case Employee => EmployeeColumns
    }
  }

  const PersonalDetailsColumns: seq<Column> := [
    Column("employeeId", "Employee ID", "[0-9]{6}", "Employee ID must be 6 digits long", false, false),
    Column("forename", "Forename", "[A-Za-z]*", "Forename must only contain characters", false, true),
    Column("surname", "Surname", "[a-zA-Z]*", "Surname must only contain characters", false, true),
    Column("dateOfBirth", "Date Of Birth (yyyy-mm-dd)", "[0-9]{4}-(0[1-9]|1[0-2])-(0[1-9]|[1-2][0-9]|3[0-1])", "Date of birth must be in the format yyyy-mm-dd", false, true),
    Column("addressLine1", "House # and Street", "[a-zA-Z0-9 _]*", "House # and Street can only contain numbers and characters", false, true),
    Column("addressTown", "Town", "[a-zA-Z]*", "Town name can only contain characters", false, true),
    Column("addressCounty", "County", "[a-zA-Z]*", "County can only contain characters", false, true),
    Column("addressPostcode", "Postcode", "[a-zA-Z_0-9]{3}[\" \"][a-zA-Z_0-9]{3}|[a-zA-Z_0-9]{3}[a-zA-Z_0-9]{3}", "Postcode must only contain numbers or characters", false, true),
    Column("telNo", "Telephone #", "[0-9]{8,12}", "Telephone number must be between 8-12 numbers only", false, true),
    Column("mobNo", "Mobile #", "[0-9]{8,12}", "Telephone number must be between 8-12 numbers only", false, true),
    Column("emergencyContact", "Emergency Contact", "[a-zA-Z ]*", "Emergency contact can only contain characters", false, true),
    Column("emergencyContactNo", "Emergency Contact #", "[0-9]{8,12}", "Telephone number must be between 8-12 numbers only", false, true)
  ]

  const InitialEmploymentDetailsColumns: seq<Column> := [
    Column("employeeId", "Employee ID", "[0-9]{6}", "Employee ID must be 6 digits long", false, false),
    Column("initialDepartment", "Department ID", "[1-4]", "Must be a number between 1 - 4", false, true),
    Column("initalRole", "Initial Role", "[1-3]", "Must be a number between 1 - 3", false, true),
    Column("initalSalary", "Initial Salary", "[0-9.]*", "Must contain only numbers", false, true),
    Column("CV", "CV", "[a-zA-Z0-9.,'\";!-]*", "CV Must contain only alphabetical, numerical or basic punctuation characters.", false, true),
    Column("interviewNotes", "Interview Notes", "[a-zA-Z0-9 .,'\"();!$\U{00A3}-]*", "Interview Notes must contain only alphabetical, numerical or basic punctuation characters.", false, true),
    Column("interviewer", "Interviewer", "[0-9]{6}", "Must be a 6 digit employee ID", false, true)
  ]

  const AnnualReviewColumns: seq<Column> := [
    Column("employeeId", "Employee ID", "[0-9]{6}", "Employee ID must be 6 digits long", false, false),
    Column("year", "Review Year", "[0-9]{4}", "Must be in the format yyyy", false, true),
    Column("firstReviewer", "First Reviewer", "[a-zA-Z]", "Must contain only characters", false, true),
    Column("secondReviewer", "Second Reviewer", "[a-zA-Z]", "Must contain only characters", false, true),
    Column("section", "Section", "[a-zA-Z_0-9]", "Must contain only numbers and characters", false, true),
    Column("jobTitle", "Job Title", "[a-zA-Z]", "Must contain only characters", false, true),
    Column("pastObjectives", "Past Objectives", ".", "Must contain...", false, true),
    Column("pastPerformanceSummary", "Past Performance Summary", ".", "Must contain...", false, true),
    Column("futureObjectives", "Future Objectives", ".", "Must contain...", false, true),
    Column("reviewerComments", "Reviewer Comments", ".", "Must contain...", false, true),
    Column("revieweeSignature", "Reviewee Signature", ".", "Must contain...", false, true),
    Column("revieweeSignatureDate", "Reviewee Signature Date (yyyy-mm-dd)", "[0-9]{4}-(0[1-9]|1[0-2])-(0[1-9]|[1-2][0-9]|3[0-1]", "Must be in the format yyyy-mm-dd", false, true),
    Column("firstReviewerSignature", "First Reviewer Signature", ".", "Must contain...", false, true),
    Column("firstReviewerSignatureDate", "Fist Reviewer Signature Date", "[0-9]{4}-(0[1-9]|1[0-2])-(0[1-9]|[1-2][0-9]|3[0-1]", "Must be in the format yyyy-mm-dd", false, true),
    Column("secondReviewerSignature", "Second Reveiwer Signature", ".", "Must contain...", false, true),
    Column("secondReviewerSignatureDate", "Second Reviewer Signature Date", "[0-9]{4}-(0[1-9]|1[0-2])-(0[1-9]|[1-2][0-9]|3[0-1]", "Must be in the format yyyy-mm-dd", false, true)
  ]

  const SalaryIncreaseColumns: seq<Column> := [
    Column("employeeId", "Employee ID", "[0-9]{6}", "Employee ID must be 6 digits long", false, false),
    Column("startDate", "Start Date", "[0-9]{4}-(0[1-9]|1[0-2])-(0[1-9]|[1-2][0-9]|3[0-1]", "Must be in the format yyyy-mm-dd", false, true),
    Column("newSalary", "New Salary", "[0-9]", "Must contain only numbers", false, true),
    Column("status", "Approval Status", "pending|approved|rejected", "Must be 'pending', 'approved', or 'rejected'", false, true)
  ]

  const PromotionColumns: seq<Column> := [
    Column("promotionId", "Promotion ID", "[0-9]*", "Promotion id must contain only numbers", true, false),
    Column("employeeId", "Employee ID", "[0-9]{6}", "Employee ID must be 6 digits long", false, false),
    Column("newRole", "New Role", "[1-3]", "New role ID must be between 1-3", false, true),
    Column("newSalary", "New Salary", "[0-9.]*", "New Salary must contain only numbers or decimal points", false, true),
    Column("startDate", "Start date", "[0-9]{4}-(0[1-9]|1[0-2])-(0[1-9]|[1-2][0-9]|3[0-1])", "Must be in the format yyyy-mm-dd", false, true)
  ]

  const ProbationColumns: seq<Column> := [
    Column("employeeId", "Employee ID", "[0-9]{6}", "Employee ID must be 6 digits long", false, false),
    Column("startDate", "Start Date", "[0-9]{4}-(0[1-9]|1[0-2])-(0[1-9]|[1-2][0-9]|3[0-1]", "Must be in the format yyyy-mm-dd", false, true),
    Column("reviewDate", "Review Date", "[0-9]{4}-(0[1-9]|1[0-2])-(0[1-9]|[1-2][0-9]|3[0-1]", "Must be in the format yyyy-mm-dd", false, true),
    Column("endDate", "End Date", "[0-9]{4}-(0[1-9]|1[0-2])-(0[1-9]|[1-2][0-9]|3[0-1]", "Must be in the format yyyy-mm-dd", false, true),
    Column("reasons", "Reasons", ".", "Must contain...", false, true),
    Column("status", "Approval Status", "pending|approved|rejected", "Must be 'pending', 'approved', or 'rejected'", false, true)
  ]

  const TerminationColumns: seq<Column> := [
    Column("employeeId", "Employee ID", "[0-9]{6}", "Employee ID must be 6 digits long", false, true),
    Column("endDate", "End Date", "[0-9]{4}-(0[1-9]|1[0-2])-(0[1-9]|[1-2][0-9]|3[0-1]", "Must be in the format yyyy-mm-dd", false, true),
    Column("Reasons", "Reason(s)", ".", "Must contain...", false, true),
    Column("status", "Approval Status", "pending|approved|rejected", "Must be 'pending', 'approved', or 'rejected'", false, true)
  ]

  const EmployeeColumns: seq<Column> := [
    Column("employeeId", "Employee ID", "[0-9]{6}", "Employee ID must be 6 digits long", false, true),
    Column("employeeLogin", "Employee Login", "[a-zA-Z_0-9]", "Must contain only characters and numbers", false, true),
    Column("departmentId", "Deprartment ID", "[0-9]", "Must contain only numbers", false, true)
  ]

  /** `RecordType.values()`, in declaration order. */
  const AllRecordTypes: seq<RecordType> := [
    PersonalDetails, InitialEmploymentDetails, AnnualReview, SalaryIncrease,
    Promotion, Probation, Termination, Employee]

  lemma AllRecordTypesComplete(k: RecordType)
    ensures k in AllRecordTypes
  {
  }

  /** Removing the spaces from the display name gives the constant's own name. */
  lemma DisplayNameWithoutSpaces(k: RecordType)
    ensures Text.RemoveSpaces(k.ToString()) == k.Name()
  {
    // Each case is proved in a lemma of its own that fixes `k` by a
    // precondition, which keeps every proof obligation small.
    if k == PersonalDetails {
      PersonalDetailsName(k);
    } else if k == InitialEmploymentDetails {
      InitialEmploymentDetailsName(k);
    } else if k == AnnualReview {
      AnnualReviewName(k);
    } else if k == SalaryIncrease {
      SalaryIncreaseName(k);
    } else {
      OneWordName(k);
    }
  }

  lemma PersonalDetailsName(k: RecordType)
    requires k == PersonalDetails
    ensures Text.RemoveSpaces(k.ToString()) == k.Name()
  {
    SpaceSeparated(k.ToString(), "Personal", "Details");
  }

  lemma InitialEmploymentDetailsName(k: RecordType)
    requires k == InitialEmploymentDetails
    ensures Text.RemoveSpaces(k.ToString()) == k.Name()
  {
    SpaceSeparated3(k.ToString(), "Initial", "Employment", "Details");
    assert "Initial" + "Employment" + "Details" == k.Name();
  }

  lemma AnnualReviewName(k: RecordType)
    requires k == AnnualReview
    ensures Text.RemoveSpaces(k.ToString()) == k.Name()
  {
    SpaceSeparated(k.ToString(), "Annual", "Review");
  }

  lemma SalaryIncreaseName(k: RecordType)
    requires k == SalaryIncrease
    ensures Text.RemoveSpaces(k.ToString()) == k.Name()
  {
    SpaceSeparated(k.ToString(), "Salary", "Increase");
  }

  lemma OneWordName(k: RecordType)
    requires k == Promotion || k == Probation || k == Termination || k == Employee
    ensures Text.RemoveSpaces(k.ToString()) == k.Name()
  {
    Text.RemoveSpacesOfSpaceFree(k.ToString());
  }

  /** Two space-free words around one space lose the space. */
  lemma SpaceSeparated(s: string, a: string, b: string)
    requires Text.SpaceFree(a) && Text.SpaceFree(b) && s == a + " " + b
    ensures Text.RemoveSpaces(s) == a + b
  {
    Text.RemoveSpacesSplit(s, a, b);
    Text.RemoveSpacesOfSpaceFree(a);
    Text.RemoveSpacesOfSpaceFree(b);
  }

  /** Three space-free words separated by single spaces lose the spaces. */
  lemma SpaceSeparated3(s: string, a: string, b: string, c: string)
    requires Text.SpaceFree(a) && Text.SpaceFree(b) && Text.SpaceFree(c)
    requires s == a + " " + b + " " + c
    ensures Text.RemoveSpaces(s) == a + b + c
  {
    assert s == a + " " + (b + " " + c);
    Text.RemoveSpacesSplit(s, a, b + " " + c);
    SpaceSeparated(b + " " + c, b, c);
    Text.RemoveSpacesOfSpaceFree(a);
  }

  /** How many columns each kind has. */
  lemma ColumnCounts()
    ensures |PersonalDetails.Columns()| == 12
    ensures |InitialEmploymentDetails.Columns()| == 7
    ensures |AnnualReview.Columns()| == 16
    ensures |SalaryIncrease.Columns()| == 4
    ensures |Promotion.Columns()| == 5
    ensures |Probation.Columns()| == 6
    ensures |Termination.Columns()| == 4
    ensures |Employee.Columns()| == 3
  {
  }

  /** Within each kind, column names are unique. */
  lemma ColumnNamesUnique(k: RecordType)
    ensures UniqueNames(k.Columns())
  {
    match k
    case PersonalDetails =>
      PersonalDetailsNamesUnique0();
      PersonalDetailsNamesUnique4();
      PersonalDetailsNamesUnique8();
    case InitialEmploymentDetails =>
      InitialEmploymentDetailsNamesUnique0();
      InitialEmploymentDetailsNamesUnique3();
    case AnnualReview =>
      AnnualReviewNamesUnique0();
      AnnualReviewNamesUnique4();
      AnnualReviewNamesUnique8();
      AnnualReviewNamesUnique12();
    case SalaryIncrease => SalaryIncreaseNamesUnique();
    case Promotion => PromotionNamesUnique();
    case Probation => ProbationNamesUnique();
    case Termination => TerminationNamesUnique();
    case Employee => EmployeeNamesUnique();
  }

  // Comparing string constants is costly for the solver, so uniqueness is
  // proved a few columns at a time; each assertion names a position where two
  // names of equal length differ.

  lemma PersonalDetailsNamesUnique0()
    ensures forall i, j :: 0 <= i < 4 && i < j < |PersonalDetailsColumns| ==> PersonalDetailsColumns[i].name != PersonalDetailsColumns[j].name
  {
    assert PersonalDetailsColumns[3].name[0] != PersonalDetailsColumns[5].name[0];
  }

  lemma PersonalDetailsNamesUnique4()
    ensures forall i, j :: 4 <= i < 8 && i < j < |PersonalDetailsColumns| ==> PersonalDetailsColumns[i].name != PersonalDetailsColumns[j].name
  {
  }

  lemma PersonalDetailsNamesUnique8()
    ensures forall i, j :: 8 <= i < 12 && i < j < |PersonalDetailsColumns| ==> PersonalDetailsColumns[i].name != PersonalDetailsColumns[j].name
  {
    assert PersonalDetailsColumns[8].name[0] != PersonalDetailsColumns[9].name[0];
  }

  lemma InitialEmploymentDetailsNamesUnique0()
    ensures forall i, j :: 0 <= i < 3 && i < j < |InitialEmploymentDetailsColumns| ==> InitialEmploymentDetailsColumns[i].name != InitialEmploymentDetailsColumns[j].name
  {
    assert InitialEmploymentDetailsColumns[0].name[0] != InitialEmploymentDetailsColumns[2].name[0];
  }

  lemma InitialEmploymentDetailsNamesUnique3()
    ensures forall i, j :: 3 <= i < 7 && i < j < |InitialEmploymentDetailsColumns| ==> InitialEmploymentDetailsColumns[i].name != InitialEmploymentDetailsColumns[j].name
  {
  }

  lemma AnnualReviewNamesUnique0()
    ensures forall i, j :: 0 <= i < 4 && i < j < |AnnualReviewColumns| ==> AnnualReviewColumns[i].name != AnnualReviewColumns[j].name
  {
    assert AnnualReviewColumns[3].name[0] != AnnualReviewColumns[6].name[0];
  }

  lemma AnnualReviewNamesUnique4()
    ensures forall i, j :: 4 <= i < 8 && i < j < |AnnualReviewColumns| ==> AnnualReviewColumns[i].name != AnnualReviewColumns[j].name
  {
    assert AnnualReviewColumns[7].name[0] != AnnualReviewColumns[12].name[0];
  }

  lemma AnnualReviewNamesUnique8()
    ensures forall i, j :: 8 <= i < 12 && i < j < |AnnualReviewColumns| ==> AnnualReviewColumns[i].name != AnnualReviewColumns[j].name
  {
    assert AnnualReviewColumns[8].name[0] != AnnualReviewColumns[9].name[0];
  }

  lemma AnnualReviewNamesUnique12()
    ensures forall i, j :: 12 <= i < 16 && i < j < |AnnualReviewColumns| ==> AnnualReviewColumns[i].name != AnnualReviewColumns[j].name
  {
  }

  lemma SalaryIncreaseNamesUnique()
    ensures forall i, j :: 0 <= i < 4 && i < j < |SalaryIncreaseColumns| ==> SalaryIncreaseColumns[i].name != SalaryIncreaseColumns[j].name
  {
    assert SalaryIncreaseColumns[1].name[0] != SalaryIncreaseColumns[2].name[0];
  }

  lemma PromotionNamesUnique()
    ensures forall i, j :: 0 <= i < 5 && i < j < |PromotionColumns| ==> PromotionColumns[i].name != PromotionColumns[j].name
  {
    assert PromotionColumns[3].name[0] != PromotionColumns[4].name[0];
  }

  lemma ProbationNamesUnique()
    ensures forall i, j :: 0 <= i < 6 && i < j < |ProbationColumns| ==> ProbationColumns[i].name != ProbationColumns[j].name
  {
    assert ProbationColumns[0].name[0] != ProbationColumns[2].name[0];
    assert ProbationColumns[3].name[0] != ProbationColumns[4].name[0];
  }

  lemma TerminationNamesUnique()
    ensures forall i, j :: 0 <= i < 4 && i < j < |TerminationColumns| ==> TerminationColumns[i].name != TerminationColumns[j].name
  {
    assert TerminationColumns[1].name[0] != TerminationColumns[2].name[0];
  }

  lemma EmployeeNamesUnique()
    ensures forall i, j :: 0 <= i < 3 && i < j < |EmployeeColumns| ==> EmployeeColumns[i].name != EmployeeColumns[j].name
  {
  }

  /** The only hidden column of the registry is the first column of Promotion, `promotionId`. */
  lemma OnlyHiddenColumn(k: RecordType, i: int)
    requires 0 <= i < |k.Columns()|
    ensures k.Columns()[i].hidden <==> k == Promotion && i == 0
    ensures k == Promotion && i == 0 ==> k.Columns()[i].name == "promotionId"
  {
  }

  /**
   * Every kind has a shown `employeeId` column, editable only for
   * Termination and Employee.
   */
  lemma EmployeeIdColumn(k: RecordType)
    ensures exists i :: 0 <= i < |k.Columns()| && k.Columns()[i].name == "employeeId" && !k.Columns()[i].hidden &&
                        (k.Columns()[i].editable <==> k == Termination || k == Employee)
  {
    var i := if k == Promotion then 1 else 0;
    assert k.Columns()[i].name == "employeeId";
  }

  /** The last column of every kind is shown and editable. */
  lemma LastColumnUpdatable(k: RecordType)
    ensures k.Columns() != [] && k.Columns()[|k.Columns()| - 1].Updatable()
  {
  }

  /**
   * Every column name of the registry is an identifier: ASCII letters and
   * digits only. Each kind's names are checked one by one, from a lemma per
   * distinct name, which keeps every proof obligation small.
   */
  lemma RegistryIdentifierNames(k: RecordType)
    ensures IdentifierNames(k.Columns())
  {
    match k
    case PersonalDetails => PersonalDetailsIdentifiers();
    case InitialEmploymentDetails => InitialEmploymentDetailsIdentifiers();
    case AnnualReview => AnnualReviewIdentifiers();
    case SalaryIncrease => SalaryIncreaseIdentifiers();
    case Promotion => PromotionIdentifiers();
    case Probation => ProbationIdentifiers();
    case Termination => TerminationIdentifiers();
    case Employee => EmployeeIdentifiers();
  }

  lemma EmployeeIdIdentifier() ensures Identifier("employeeId") {}
  lemma ForenameIdentifier() ensures Identifier("forename") {}
  lemma SurnameIdentifier() ensures Identifier("surname") {}
  lemma DateOfBirthIdentifier() ensures Identifier("dateOfBirth") {}
  lemma AddressLine1Identifier() ensures Identifier("addressLine1") {}
  lemma AddressTownIdentifier() ensures Identifier("addressTown") {}
  lemma AddressCountyIdentifier() ensures Identifier("addressCounty") {}
  lemma AddressPostcodeIdentifier() ensures Identifier("addressPostcode") {}
  lemma TelNoIdentifier() ensures Identifier("telNo") {}
  lemma MobNoIdentifier() ensures Identifier("mobNo") {}
  lemma EmergencyContactIdentifier() ensures Identifier("emergencyContact") {}
  lemma EmergencyContactNoIdentifier() ensures Identifier("emergencyContactNo") {}
  lemma InitialDepartmentIdentifier() ensures Identifier("initialDepartment") {}
  lemma InitalRoleIdentifier() ensures Identifier("initalRole") {}
  lemma InitalSalaryIdentifier() ensures Identifier("initalSalary") {}
  lemma CVIdentifier() ensures Identifier("CV") {}
  lemma InterviewNotesIdentifier() ensures Identifier("interviewNotes") {}
  lemma InterviewerIdentifier() ensures Identifier("interviewer") {}
  lemma YearIdentifier() ensures Identifier("year") {}
  lemma FirstReviewerIdentifier() ensures Identifier("firstReviewer") {}
  lemma SecondReviewerIdentifier() ensures Identifier("secondReviewer") {}
  lemma SectionIdentifier() ensures Identifier("section") {}
  lemma JobTitleIdentifier() ensures Identifier("jobTitle") {}
  lemma PastObjectivesIdentifier() ensures Identifier("pastObjectives") {}
  lemma PastPerformanceSummaryIdentifier() ensures Identifier("pastPerformanceSummary") {}
  lemma FutureObjectivesIdentifier() ensures Identifier("futureObjectives") {}
  lemma ReviewerCommentsIdentifier() ensures Identifier("reviewerComments") {}
  lemma RevieweeSignatureIdentifier() ensures Identifier("revieweeSignature") {}
  lemma RevieweeSignatureDateIdentifier() ensures Identifier("revieweeSignatureDate") {}
  lemma FirstReviewerSignatureIdentifier() ensures Identifier("firstReviewerSignature") {}
  lemma FirstReviewerSignatureDateIdentifier() ensures Identifier("firstReviewerSignatureDate") {}
  lemma SecondReviewerSignatureIdentifier() ensures Identifier("secondReviewerSignature") {}
  lemma SecondReviewerSignatureDateIdentifier() ensures Identifier("secondReviewerSignatureDate") {}
  lemma StartDateIdentifier() ensures Identifier("startDate") {}
  lemma NewSalaryIdentifier() ensures Identifier("newSalary") {}
  lemma StatusIdentifier() ensures Identifier("status") {}
  lemma PromotionIdIdentifier() ensures Identifier("promotionId") {}
  lemma NewRoleIdentifier() ensures Identifier("newRole") {}
  lemma ReviewDateIdentifier() ensures Identifier("reviewDate") {}
  lemma EndDateIdentifier() ensures Identifier("endDate") {}
  lemma ReasonsIdentifier() ensures Identifier("reasons") {}
  lemma CapitalReasonsIdentifier() ensures Identifier("Reasons") {}
  lemma EmployeeLoginIdentifier() ensures Identifier("employeeLogin") {}
  lemma DepartmentIdIdentifier() ensures Identifier("departmentId") {}

  lemma PersonalDetailsIdentifiers()
    ensures IdentifierNames(PersonalDetailsColumns)
  {
    EmployeeIdIdentifier();
    ForenameIdentifier();
    SurnameIdentifier();
    DateOfBirthIdentifier();
    AddressLine1Identifier();
    AddressTownIdentifier();
    AddressCountyIdentifier();
    AddressPostcodeIdentifier();
    TelNoIdentifier();
    MobNoIdentifier();
    EmergencyContactIdentifier();
    EmergencyContactNoIdentifier();
  }

  lemma InitialEmploymentDetailsIdentifiers()
    ensures IdentifierNames(InitialEmploymentDetailsColumns)
  {
    EmployeeIdIdentifier();
    InitialDepartmentIdentifier();
    InitalRoleIdentifier();
    InitalSalaryIdentifier();
    CVIdentifier();
    InterviewNotesIdentifier();
    InterviewerIdentifier();
  }

  lemma AnnualReviewIdentifiers()
    ensures IdentifierNames(AnnualReviewColumns)
  {
    EmployeeIdIdentifier();
    YearIdentifier();
    FirstReviewerIdentifier();
    SecondReviewerIdentifier();
    SectionIdentifier();
    JobTitleIdentifier();
    PastObjectivesIdentifier();
    PastPerformanceSummaryIdentifier();
    FutureObjectivesIdentifier();
    ReviewerCommentsIdentifier();
    RevieweeSignatureIdentifier();
    RevieweeSignatureDateIdentifier();
    FirstReviewerSignatureIdentifier();
    FirstReviewerSignatureDateIdentifier();
    SecondReviewerSignatureIdentifier();
    SecondReviewerSignatureDateIdentifier();
  }

  lemma SalaryIncreaseIdentifiers()
    ensures IdentifierNames(SalaryIncreaseColumns)
  {
    EmployeeIdIdentifier();
    StartDateIdentifier();
    NewSalaryIdentifier();
    StatusIdentifier();
  }

  lemma PromotionIdentifiers()
    ensures IdentifierNames(PromotionColumns)
  {
    PromotionIdIdentifier();
    EmployeeIdIdentifier();
    NewRoleIdentifier();
    NewSalaryIdentifier();
    StartDateIdentifier();
  }

  lemma ProbationIdentifiers()
    ensures IdentifierNames(ProbationColumns)
  {
    EmployeeIdIdentifier();
    StartDateIdentifier();
    ReviewDateIdentifier();
    EndDateIdentifier();
    ReasonsIdentifier();
    StatusIdentifier();
  }

  lemma TerminationIdentifiers()
    ensures IdentifierNames(TerminationColumns)
  {
    EmployeeIdIdentifier();
    EndDateIdentifier();
    CapitalReasonsIdentifier();
    StatusIdentifier();
  }

  lemma EmployeeIdentifiers()
    ensures IdentifierNames(EmployeeColumns)
  {
    EmployeeIdIdentifier();
    EmployeeLoginIdentifier();
    DepartmentIdIdentifier();
  }
}
