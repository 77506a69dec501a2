/** Which downstream answers are worth another attempt. */
module Failure {

  datatype FailureClass = Transient | Permanent | Ambiguous

  predicate IsRetryable(c: FailureClass) {
    c.Transient? || c.Ambiguous?
  }

  function ClassifyHttpStatus(status: nat): FailureClass {
    if status == 408 || status == 429 then Transient
    else if 500 <= status <= 599 then Transient
    else Permanent
  }

  predicate IsSuccess(status: nat) {
    200 <= status <= 299
  }
}
