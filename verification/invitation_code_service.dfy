/**
 * The invitation-code table and its life cycle: a code is generated
 * available (status 1), may be marked sent (2) in a batch, and is used up
 * (0) by a registration; codes are listed newest first and searched by
 * code or by the login name that used them. The table is modelled as the
 * list of its rows; the random code text, row ids and clock are inputs.
 */
module InvitationCodeService {
  import opened Base
  import opened Strings
  import opened Seqs

  const USED := 0
  const AVAILABLE := 1
  const SENT := 2

  const MSG_NOT_SIGNED_IN := "用户未登录，无法生成邀请码"

  datatype Code = Code(
    id: int, createdAt: int, code: string, status: int, createdBy: string,
    usedAt: Option<string>, relatedLoginName: Option<string>)

  /**
   * `generateInvitationCode`: without a signed-in user, an error; otherwise
   * a new available row created by that user is added.
   */
  function Generate(table: seq<Code>, user: Option<string>, text: string, id: int, now: int): (r: Result<seq<Code>>)
    ensures user.None? <==> r.Err?
    ensures user.None? ==> r.msg == MSG_NOT_SIGNED_IN
    ensures user.Some? ==> r.value == table + [Code(id, now, text, AVAILABLE, user.value, None, None)]
  {
    if user.None? then Err(MSG_NOT_SIGNED_IN)
    else Ok(table + [Code(id, now, text, AVAILABLE, user.value, None, None)])
  }

  /** `deleteInvitationCode` / `deleteMultipleInvitationCodes`: exactly the rows with a given id go. */
  function Delete(table: seq<Code>, ids: seq<int>): (r: seq<Code>)
    ensures forall c :: c in r ==> c.id !in ids
    ensures forall i :: 0 <= i < |table| && table[i].id !in ids ==> table[i] in r
    ensures IsSubseq(r, table)
  {
    Filter((c: Code) => c.id !in ids, table)
  }

  /** Deleting no ids leaves the table as it is. */
  lemma DeleteNothing(table: seq<Code>)
    ensures Delete(table, []) == table
  {
    FilterAll((c: Code) => c.id !in [], table);
  }

  /**
   * `batchSendInvitationCodes`: the rows with a given id that are available
   * become sent; every other row, and every other column, is unchanged.
   */
  function BatchSend(table: seq<Code>, ids: seq<int>): (r: seq<Code>)
    ensures |r| == |table|
    ensures forall i :: 0 <= i < |table| && table[i].id in ids && table[i].status == AVAILABLE ==> r[i] == table[i].(status := SENT)
    ensures forall i :: 0 <= i < |table| && !(table[i].id in ids && table[i].status == AVAILABLE) ==> r[i] == table[i]
  {
    Map((c: Code) => if c.id in ids && c.status == AVAILABLE then c.(status := SENT) else c, table)
  }

  /** Sending twice is sending once: a sent code is no longer available. */
  lemma BatchSendIdempotent(table: seq<Code>, ids: seq<int>)
    ensures BatchSend(BatchSend(table, ids), ids) == BatchSend(table, ids)
  {
  }

  /** A code matches the search when the code or the login name that used it contains the query, ignoring case. */
  predicate MatchesQuery(c: Code, query: string)
  {
    Contains(Lower(c.code), Lower(query))
    || (c.relatedLoginName.Some? && Contains(Lower(c.relatedLoginName.value), Lower(query)))
  }

  /**
   * `getInvitationCodes`: the rows, newest first, narrowed to the matching
   * ones when a query is given.
   */
  function Listing(table: seq<Code>, query: string): (r: seq<Code>)
    ensures SortedDesc((c: Code) => c.createdAt, r)
    ensures query == "" ==> multiset(r) == multiset(table)
    ensures query != "" ==> forall c :: c in r <==> c in table && MatchesQuery(c, query)
  {
    var rows := if query == "" then table else Filter((c: Code) => MatchesQuery(c, query), table);
    var r := SortDesc((c: Code) => c.createdAt, rows);
    assert forall c :: c in r <==> c in rows by {
      assert forall c :: c in r <==> c in multiset(r);
    }
    r
  }

  /** The rows `maybeSingle` sees: none is "no row", one is that row, several are an error. */
  function MaybeSingle<T>(rows: seq<T>): (r: Fetch<T>)
    ensures rows == [] <==> r.NotFound?
    ensures |rows| == 1 <==> r.Found?
    ensures r.Found? ==> r.row == rows[0]
  {
    if rows == [] then NotFound else if |rows| == 1 then Found(rows[0]) else Failed("multiple rows")
  }

  /** The available rows with this code text, as registration looks them up. */
  function AvailableWithText(table: seq<Code>, text: string): (r: seq<Code>)
    ensures forall c :: c in r <==> c in table && c.code == text && c.status == AVAILABLE
  {
    Filter((c: Code) => c.code == text && c.status == AVAILABLE, table)
  }

  /**
   * What registration does to the table: every row with that code text is
   * used up, stamped with the time and the registering email.
   */
  function Consume(table: seq<Code>, text: string, email: string, iso: string): (r: seq<Code>)
    ensures |r| == |table|
    ensures forall i :: 0 <= i < |table| && table[i].code == text ==>
      r[i] == table[i].(status := USED, usedAt := Some(iso), relatedLoginName := Some(email))
    ensures forall i :: 0 <= i < |table| && table[i].code != text ==> r[i] == table[i]
  {
    Map((c: Code) => if c.code == text then c.(status := USED, usedAt := Some(iso), relatedLoginName := Some(email)) else c, table)
  }

  /** After registration no row with that code text is available any more. */
  lemma ConsumedNotAvailable(table: seq<Code>, text: string, email: string, iso: string)
    ensures AvailableWithText(Consume(table, text, email, iso), text) == []
  {
    var r := Consume(table, text, email, iso);
    FilterNone((c: Code) => c.code == text && c.status == AVAILABLE, r);
  }

  /** After a batch send no row sent in it is available. */
  lemma SentNotAvailable(table: seq<Code>, c: Code)
    requires c in table
    ensures forall d :: d in AvailableWithText(BatchSend(table, [c.id]), c.code) ==> d.id != c.id
  {
  }

  /** A query only narrows the listing: every row it shows is shown, as often, without one. */
  lemma QueryNarrowsListing(table: seq<Code>, query: string)
    ensures multiset(Listing(table, query)) <= multiset(Listing(table, ""))
  {
    var keep := (c: Code) => MatchesQuery(c, query);
    FilterMultiset(keep, table);
  }
}
