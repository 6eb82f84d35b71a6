/** Interpretation of one homework record against the store of last-seen
    statuses (`parse_status`, `homework_statuses`, `HOMEWORK_VERDICTS`). */
module Statuses {
  import opened Results
  import opened Text
  import opened Json

  /** The three review states the bot accepts (`ALLOWED_STATUSES`). */
  datatype Status = Approved | Reviewing | Rejected

  /** How the API spells each state. */
  function Spelling(st: Status): string {
    match st
    case Approved => "approved"
    case Reviewing => "reviewing"
    case Rejected => "rejected"
  }

  /** `status in ALLOWED_STATUSES`, telling which state it names. Only a
      JSON string equal to one of the three spellings is accepted. */
  function StatusOf(j: Json): (r: Option<Status>)
    ensures r.Some? ==> j == JStr(Spelling(r.value))
    ensures r.None? ==> forall st: Status :: j != JStr(Spelling(st))
  {
    if j == JStr("approved") then Some(Approved)
    else if j == JStr("reviewing") then Some(Reviewing)
    else if j == JStr("rejected") then Some(Rejected)
    else None
  }

  /** `HOMEWORK_VERDICTS`: the phrase announced for each state. */
  function Verdict(st: Status): string {
    match st
    case Approved => "Работа проверена: ревьюеру всё понравилось. Ура!"
    case Reviewing => "Работа взята на проверку ревьюером."
    case Rejected => "Работа проверена: у ревьюера есть замечания."
  }

  /** A key of a Python dict built from a JSON scalar. `True` and `False`
      hash and compare equal to `1` and `0`, so they share those keys. */
  datatype Key = NumberKey(n: int) | TextKey(s: string)

  /** The key a homework name is stored under, or `None` when the name is
      a list or dict, which Python refuses as a dict key (`TypeError`). */
  function KeyOf(name: Json): (r: Option<Key>)
    requires !name.JNull?
    ensures r.None? <==> name.JArr? || name.JObj?
  {
    match name
    case JBool(b) => Some(NumberKey(if b then 1 else 0))
    case JInt(n) => Some(NumberKey(n))
    case JStr(s) => Some(TextKey(s))
    case _ => None
  }

  /** Python's `a == b` on two JSON scalars: strings compare as strings,
      booleans and integers by numeric value, and a string never equals a
      number. */
  predicate PyEqual(a: Json, b: Json) {
    match (a, b)
    case (JStr(x), JStr(y)) => x == y
    case (JStr(_), _) => false
    case (_, JStr(_)) => false
    case _ => NumericValue(a) == NumericValue(b)
  }

  /** The numeric value of a boolean or integer (`True` is 1). */
  function NumericValue(j: Json): int {
    match j
    case JBool(b) => if b then 1 else 0
    case JInt(n) => n
    case _ => 0
  }

  /** Two hashable names share a store entry exactly when Python considers
      them equal: `True` and `1` collide, `"1"` and `1` do not. */
  lemma KeysFollowPythonEquality(a: Json, b: Json)
    requires !a.JNull? && !b.JNull? && KeyOf(a).Some? && KeyOf(b).Some?
    ensures KeyOf(a) == KeyOf(b) <==> PyEqual(a, b)
  {
  }

  /** `homework_statuses`: the status first seen for each homework name. */
  type Store = map<Key, Status>

  /** Every entry of `a` is in `b` with the same status. */
  ghost predicate Extends(a: Store, b: Store) {
    forall k :: k in a ==> k in b && b[k] == a[k]
  }

  // ---------------------------------------------------------------------
  // Status-change notices and their decoding

  const NoticeHead := "Изменился статус проверки работы \""

  /** Everything after the homework name in a notice. */
  function Tail(st: Status): string {
    "\". " + Verdict(st)
  }

  /** The message announcing that homework `name` is now in state `st`. */
  function Notice(name: string, st: Status): (r: string)
    ensures NoticeHead <= r && EndsWith(r, Tail(st))
    ensures |r| == |NoticeHead| + |name| + |Tail(st)|
    ensures r[|NoticeHead|..|r| - |Tail(st)|] == name
  {
    var r := NoticeHead + (name + Tail(st));
    assert r[|NoticeHead| + |name|..] == Tail(st);
    r
  }

  function TailStatus(m: string): Option<Status> {
    if EndsWith(m, Tail(Approved)) then Some(Approved)
    else if EndsWith(m, Tail(Reviewing)) then Some(Reviewing)
    else if EndsWith(m, Tail(Rejected)) then Some(Rejected)
    else None
  }

  /** Reads the homework name and the state back out of a notice. */
  function DecodeNotice(m: string): Option<(string, Status)> {
    if !(NoticeHead <= m) then None
    else
      match TailStatus(m)
      case None => None
      case Some(st) =>
        if |m| < |NoticeHead| + |Tail(st)| then None
        else Some((m[|NoticeHead|..|m| - |Tail(st)|], st))
  }

  /** The verdicts end in different character pairs, so no notice ends in
      the tail of a state other than its own. */
  lemma TailLastTwo(st: Status)
    ensures |Tail(st)| >= 2
    ensures LastTwo(Tail(st)) ==
              match st
              case Approved => ('!', 'а')
              case Reviewing => ('.', 'м')
              case Rejected => ('.', 'я')
  {
  }

  lemma TailsExclusive(m: string, st: Status, other: Status)
    requires EndsWith(m, Tail(st)) && EndsWith(m, Tail(other))
    ensures st == other
  {
    TailLastTwo(st);
    TailLastTwo(other);
    EndsWithLastTwo(m, Tail(st));
    EndsWithLastTwo(m, Tail(other));
  }

  /** Decoding recovers exactly the name and state a notice was built
      from; in particular distinct (name, state) pairs give distinct
      notices. */
  lemma NoticeRoundTrip(name: string, st: Status)
    ensures DecodeNotice(Notice(name, st)) == Some((name, st))
  {
    var m := Notice(name, st);
    forall other | EndsWith(m, Tail(other))
      ensures other == st
    {
      TailsExclusive(m, st, other);
    }
    assert TailStatus(m) == Some(st);
  }

  // ---------------------------------------------------------------------
  // parse_status

  const MissingNameText := "В ответе сервера нет ключа homework_name"

  /** The text of the exception raised for a status outside the allowed set. */
  function UnknownStatusText(status: Json): string {
    "Неизвестный статус " + Show(status)
  }

  /** The text of the `AttributeError` from calling `.get` on a record
      that is not a dict. */
  function NoGetText(record: Json): string {
    "'" + TypeName(record) + "' object has no attribute 'get'"
  }

  function NameField(record: Json): Json
    requires record.JObj?
  {
    Get(record.fields, "homework_name")
  }

  function StatusField(record: Json): Json
    requires record.JObj?
  {
    Get(record.fields, "status")
  }

  /** A record `parse_status` can interpret: a dict with a usable name and
      an allowed status. */
  predicate Readable(record: Json) {
    && record.JObj?
    && NameField(record) != JNull
    && StatusOf(StatusField(record)).Some?
    && KeyOf(NameField(record)).Some?
  }

  function RecordKey(record: Json): Key
    requires Readable(record)
  {
    KeyOf(NameField(record)).value
  }

  function RecordStatus(record: Json): Status
    requires Readable(record)
  {
    StatusOf(StatusField(record)).value
  }

  /** What interpreting one record yields: the message to send (`""` for
      none) and the store afterwards. */
  datatype Parsed = Parsed(message: string, store: Store)

  /** `parse_status`. Errors leave the store as it was (the caller never
      sees a store on error). A record whose status equals the stored one
      gives no message. Any other readable record gives a notice naming it
      and its current state; the store gains the entry only when the name
      was unknown, and a stored entry is never overwritten. */
  function ParseStatus(record: Json, store: Store): (r: Result<Parsed, Fault>)
    ensures !record.JObj? ==> r == Err(Raised(NoGetText(record)))
    ensures record.JObj? && NameField(record) == JNull ==> r == Err(Raised(MissingNameText))
    ensures record.JObj? && NameField(record) != JNull && StatusOf(StatusField(record)).None? ==>
              r == Err(Raised(UnknownStatusText(StatusField(record))))
    ensures r == Err(TypeError) <==>
              record.JObj? && NameField(record) != JNull && StatusOf(StatusField(record)).Some?
              && (NameField(record).JArr? || NameField(record).JObj?)
    ensures r.Ok? <==> Readable(record)
    ensures r.Ok? ==> Extends(store, r.value.store)
    ensures r.Ok? ==>
              (r.value.message == "" <==>
                 RecordKey(record) in store && store[RecordKey(record)] == RecordStatus(record))
    ensures r.Ok? && RecordKey(record) !in store ==>
              r.value.store == store[RecordKey(record) := RecordStatus(record)]
    ensures r.Ok? && RecordKey(record) in store ==> r.value.store == store
    ensures r.Ok? && r.value.message != "" ==>
              DecodeNotice(r.value.message) == Some((Show(NameField(record)), RecordStatus(record)))
  {
    if !record.JObj? then Err(Raised(NoGetText(record)))
    else
      var name := NameField(record);
      if name == JNull then Err(Raised(MissingNameText))
      else
        var status := StatusField(record);
        match StatusOf(status)
        case None => Err(Raised(UnknownStatusText(status)))
        case Some(st) =>
          match KeyOf(name)
          case None => Err(TypeError)
          case Some(k) =>
            if k in store && store[k] == st then Ok(Parsed("", store))
            else
              NoticeRoundTrip(Show(name), st);
              Ok(Parsed(Notice(Show(name), st), if k !in store then store[k := st] else store))
  }

  /** A homework whose stored status differs from the current one is
      announced, and the store is left as it was, so the next identical
      record is announced again. */
  lemma ChangedStatusAnnouncedEveryTime(record: Json, store: Store)
    requires Readable(record)
    requires RecordKey(record) in store && store[RecordKey(record)] != RecordStatus(record)
    ensures var r := ParseStatus(record, store);
            && r.Ok? && r.value.store == store && r.value.message != ""
            && ParseStatus(record, r.value.store) == r
  {
  }

  /** After a first sighting, the same record again yields nothing. */
  lemma FirstSightingThenSilent(record: Json, store: Store)
    requires Readable(record) && RecordKey(record) !in store
    ensures var r := ParseStatus(record, store);
            && r.Ok? && r.value.message != ""
            && ParseStatus(record, r.value.store) == Ok(Parsed("", r.value.store))
  {
  }
}

