/** The exceptions the script can raise; each one aborts the whole run. */
module Errors {

  datatype Error =
    /** `raise 'Invalid parameter'`: the row is neither a CSV::Row nor a Hash. */
    | InvalidParameter
    /** `DateTime.strptime` rejected `text` (the field with the zone suffix appended). */
    | InvalidDate(text: string)
    /** `"" - created`: String has no `-`, so a Merged value that is the empty String raises NoMethodError. */
    | UndefinedMinus
    /** `merged - created` with a `created` that is `nil` or `""`: TypeError. */
    | NotADate
    /** `"" > cutoff`: a Created value that is the empty String cannot be compared with a DateTime. */
    | ComparisonFailed
    /** A statistic the report formats with `%d` or `%f` raised or was missing. */
    | StatisticFailed
}
