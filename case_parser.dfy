/** Normalising one raw case record into the fixed attribute set the rest of the
    pipeline reads (_extract_case_info). */
module CaseParser {
  import opened Json
  import Text

  /** The attributes of a case. The case number is always text; every other attribute keeps
      the JSON value it had in the record (or the empty string when it was missing). */
  datatype CaseInfo = CaseInfo(
    caseNumber: string,
    accountName: Value,
    userName: Value,
    caseStatus: Value,
    caseReason: Value,
    createdDate: Value,
    closedDate: Value,
    threadId: Value)

  /** The case number shown when a record has none. */
  const UnknownCaseNumber := "unknown"

  /** One attribute of the record, or the empty string when the record lacks it. */
  function Attribute(record: map<string, Value>, key: string): (v: Value)
    ensures key in record ==> v == record[key]
    ensures key !in record ==> v == Str("")
  {
    GetOr(record, key, Str(""))
  }

  /** _extract_case_info: never fails on a missing attribute. The case number is str() of the
      stored value, or "unknown" when there is none; the other attributes default to "". */
  function ExtractCaseInfo(record: map<string, Value>): (info: CaseInfo)
    ensures info.caseNumber == if "case_number" in record then PyStr(record["case_number"]) else UnknownCaseNumber
    ensures info.accountName == Attribute(record, "account_name")
    ensures info.userName == Attribute(record, "user_name")
    ensures info.caseStatus == Attribute(record, "case_status")
    ensures info.caseReason == Attribute(record, "case_reason")
    ensures info.createdDate == Attribute(record, "case_created_date")
    ensures info.closedDate == Attribute(record, "case_closed_date")
    ensures info.threadId == Attribute(record, "thread_id")
  {
    CaseInfo(
      PyStr(GetOr(record, "case_number", Str(UnknownCaseNumber))),
      Attribute(record, "account_name"),
      Attribute(record, "user_name"),
      Attribute(record, "case_status"),
      Attribute(record, "case_reason"),
      Attribute(record, "case_created_date"),
      Attribute(record, "case_closed_date"),
      Attribute(record, "thread_id"))
  }

  /** A numeric case number becomes its decimal text, from which the number can be read back:
      two records with different non-negative case numbers never share a case number text. */
  lemma NumericCaseNumber(record: map<string, Value>, n: nat)
    requires "case_number" in record && record["case_number"] == Int(n)
    ensures Text.AllDigits(ExtractCaseInfo(record).caseNumber)
    ensures Text.DecimalValue(ExtractCaseInfo(record).caseNumber) == n
  {
    Text.DecimalRoundTrip(n);
  }
}
