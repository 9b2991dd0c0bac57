/** CloudWatch alarm configuration (aws/cloudwatch.go). */
module Alarms {
  import opened Text
  import opened Expressions

  datatype Dimension = Dimension(name: StringExpr, value: StringExpr)

  /** An alarm; properties holds the settings that are copied to the stack unread. */
  datatype Alarm = Alarm(
    alarmName: Option<StringExpr>,
    namespace: Option<StringExpr>,
    dimensions: seq<Dimension>,
    properties: seq<StringListExpr>)

  /** A list of alarms; digest stands for the hash of its encoding. */
  datatype AlarmList = AlarmList(alarms: seq<Alarm>, digest: string)
  {
    function Hash(): string {
      if alarms == [] then "" else digest
    }
  }
}
