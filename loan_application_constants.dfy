/** Policy constants shared between rules. */
module LoanApplicationConstants {

  /** A loan of at least this amount is a large loan. The large-loan rule and the
      small-loan rule both split on this one value, so they can never disagree about
      which side of the threshold a loan is on. */
  const LargeLoanAmount: real := 1000000.0
}
