/**
 * Where the console application and the HTTP server compute the same thing
 * in different words.
 */
module Copies {
  import BankApp
  import BankServer

  /** `substring(0, min(3, len)).toUpperCase()` and
      `len >= 3 ? substring(0, 3).toUpperCase() : toUpperCase()` agree on
      every username, so both programs number a user's accounts alike. */
  lemma PrefixesAgree(username: string)
    ensures BankServer.AccountNoPrefix(username) == BankApp.AccountNoPrefix(username)
  {
  }
}
