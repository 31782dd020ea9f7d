/**
 The records of package types (types/types.go). Times are integers counting
 nanoseconds on one common clock.
 */
module Types {

  /** What the server stores for one id: the password (raw until the deferred
      completion replaces it by its digest) and the time it was submitted. */
  datatype IDData = IDData(Password: string, FirstCall: int)

  /** The JSON body of a /hash request, and the JSON answer to one. */
  datatype HashData = HashData(Password: string, ID: int)

  /** The answer to /stats. The average is the integer quotient the server
      computes (microseconds); the field's float type is not modelled. */
  datatype StatsData = StatsData(Total: int, Average: int)
}
