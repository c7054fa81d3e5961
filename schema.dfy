/** The request record of the decision operation and the one-row frame the
    service builds from it (`pd.DataFrame([core_input])`). Field names follow
    the request schema; `model_choice` and `tone` are the two options that
    are not applicant data. */
module Schema {
  import opened Wrappers
  import opened Frames

  const PersonAge := "person_age"
  const PersonIncome := "person_income"
  const PersonHomeOwnership := "person_home_ownership"
  const PersonEmpLength := "person_emp_length"
  const LoanIntent := "loan_intent"
  const LoanGrade := "loan_grade"
  const LoanAmnt := "loan_amnt"
  const LoanIntRate := "loan_int_rate"
  const CbPersonDefaultOnFile := "cb_person_default_on_file"
  const CbPersonCredHistLength := "cb_person_cred_hist_length"
  const PersonGender := "person_gender"

  /** The applicant part of a request (`core_input`). */
  datatype Applicant = Applicant(
    personAge: real,
    personIncome: real,
    personHomeOwnership: string,
    personEmpLength: real,
    loanIntent: string,
    loanGrade: string,
    loanAmnt: real,
    loanIntRate: real,
    cbPersonDefaultOnFile: string,
    cbPersonCredHistLength: real,
    personGender: Option<string>)

  datatype Request = Request(applicant: Applicant, modelChoice: string, tone: string)

  /** The one-row frame of an applicant, columns in declaration order. */
  function ApplicantFrame(a: Applicant): (f: Frame)
    ensures f.rows == 1 && Valid(f)
    ensures Names(f) == [PersonAge, PersonIncome, PersonHomeOwnership, PersonEmpLength,
                         LoanIntent, LoanGrade, LoanAmnt, LoanIntRate,
                         CbPersonDefaultOnFile, CbPersonCredHistLength, PersonGender]
  {
    Frame(1, [
      Column(PersonAge, [Num(a.personAge)]),
      Column(PersonIncome, [Num(a.personIncome)]),
      Column(PersonHomeOwnership, [Text(a.personHomeOwnership)]),
      Column(PersonEmpLength, [Num(a.personEmpLength)]),
      Column(LoanIntent, [Text(a.loanIntent)]),
      Column(LoanGrade, [Text(a.loanGrade)]),
      Column(LoanAmnt, [Num(a.loanAmnt)]),
      Column(LoanIntRate, [Num(a.loanIntRate)]),
      Column(CbPersonDefaultOnFile, [Text(a.cbPersonDefaultOnFile)]),
      Column(CbPersonCredHistLength, [Num(a.cbPersonCredHistLength)]),
      Column(PersonGender, [if a.personGender.Some? then Text(a.personGender.value) else Missing])
    ])
  }
}
