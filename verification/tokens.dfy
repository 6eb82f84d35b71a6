/** Start-up check that the three credentials read from the environment
    are all set (`check_tokens`). */
module Tokens {
  import opened Results

  /** What `os.getenv` returned for each credential. */
  datatype Tokens = Tokens(practicum: Option<string>, telegram: Option<string>, chatId: Option<string>)

  datatype TokenCheck = AllPresent | Missing(token: string)

  /** Python truthiness of an environment value: neither `None` nor `''`. */
  predicate Truthy(v: Option<string>) {
    v.Some? && v.value != ""
  }

  /** The credentials in the order the check visits them. */
  function Table(t: Tokens): seq<(string, Option<string>)> {
    [("PRACTICUM_TOKEN", t.practicum), ("TELEGRAM_TOKEN", t.telegram), ("TELEGRAM_CHAT_ID", t.chatId)]
  }

  /** The loop over the table: stops at the first falsy value. */
  function FirstMissing(table: seq<(string, Option<string>)>): (r: TokenCheck)
    ensures r == AllPresent <==> forall i :: 0 <= i < |table| ==> Truthy(table[i].1)
    ensures r.Missing? ==>
              exists i :: 0 <= i < |table| && table[i].0 == r.token && !Truthy(table[i].1)
                          && forall j :: 0 <= j < i ==> Truthy(table[j].1)
  {
    if |table| == 0 then AllPresent
    else if !Truthy(table[0].1) then Missing(table[0].0)
    else
      var r := FirstMissing(table[1..]);
      if r.Missing? then
        var i :| 0 <= i < |table[1..]| && table[1..][i].0 == r.token && !Truthy(table[1..][i].1)
                  && forall j :: 0 <= j < i ==> Truthy(table[1..][j].1);
        assert table[i + 1] == table[1..][i];
        assert forall j :: 1 <= j < i + 1 ==> table[j] == table[1..][j - 1];
        r
      else
        r
  }

  /** `check_tokens`: succeeds iff every credential is set; otherwise the
      process stops naming the first missing one, in the fixed order
      practicum token, bot token, chat id. */
  function CheckTokens(t: Tokens): (r: TokenCheck)
    ensures r == AllPresent <==> Truthy(t.practicum) && Truthy(t.telegram) && Truthy(t.chatId)
    ensures r == Missing("PRACTICUM_TOKEN") <==> !Truthy(t.practicum)
    ensures r == Missing("TELEGRAM_TOKEN") <==> Truthy(t.practicum) && !Truthy(t.telegram)
    ensures r == Missing("TELEGRAM_CHAT_ID") <==>
              Truthy(t.practicum) && Truthy(t.telegram) && !Truthy(t.chatId)
  {
    var table := Table(t);
    var r := FirstMissing(table);
    assert r == AllPresent <==> Truthy(table[0].1) && Truthy(table[1].1) && Truthy(table[2].1);
    r
  }
}
