/**
 * The principal bound to a realtime connection: the user's id, the e-mail it
 * authenticated with, and its authorities. All three are fixed at construction.
 * Its name, which addresses the user's private queues, is the decimal id.
 */
module UserPrincipal {
  import opened Text

  datatype Principal = Principal(userId: int, username: string, authorities: seq<string>)

  /** `getName`: the id written in decimal, never the e-mail. */
  function Name(p: Principal): (s: string)
    ensures |s| >= 1
    ensures p.userId >= 0 ==> forall i :: 0 <= i < |s| ==> IsDigit(s[i])
    ensures p.userId < 0 ==> s[0] == '-'
  {
    IntToString(p.userId)
  }

  /** Two principals share a name exactly when they share an id, whatever their e-mails and authorities. */
  lemma NameIdentifiesUser(p: Principal, q: Principal)
    ensures Name(p) == Name(q) <==> p.userId == q.userId
  {
    if Name(p) == Name(q) {
      IntToStringInjective(p.userId, q.userId);
    }
  }
}
