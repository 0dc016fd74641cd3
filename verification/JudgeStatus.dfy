/** The verdicts of the judge and the severity order used to summarise them. */
module JudgeStatus {
  datatype Status = AC | WA | CE | TLE | RE | MLE | SYSERR

  function Severity(status: Status): nat {
    match status
    case AC => 0
    case WA => 1
    case RE => 2
    case MLE => 3
    case TLE => 4
    case SYSERR => 5
    case CE => 6
  }
}
