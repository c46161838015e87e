/**
 * The Drafts table and the registration of proposals into it. A row is
 * Proposed while its `Channel` column is NULL (or empty) and Activated once
 * provisioning has written the id of the channel it created.
 */
module Drafts {
  import opened Options
  import opened Text
  import opened Dates
  import opened Proposal

  /** A chat message as the message handlers receive it. */
  datatype Message = Message(id: string, channel: string, author: string, content: string)

  /** The columns that registration fills in. */
  datatype Draft = Draft(
    name: string, teams: string, rounds: int, date: DateTime,
    guild: string, origChannel: string, message: string)

  /** A row of the Drafts table: its serial key, its columns, and `Channel`. */
  datatype Row = Row(key: nat, draft: Draft, channel: Option<string>)

  /** What the proposal handler does with a message. */
  datatype Registration =
    | NotAProposal         // authored by the bot, or no block in the text
    | ChannelLookupFailed  // the origin channel could not be fetched: the process exits
    | Proposed(draft: Draft)

  /**
   * The row the proposal handler builds for a message. `guildOf` gives the
   * guild of each channel the platform knows. The sub-fields are not
   * rejected: rounds and date are whatever the parsers make of them.
   */
  function Propose(msg: Message, botId: string, year: int, guildOf: map<string, string>): (r: Registration)
    ensures r.Proposed? <==> msg.author != botId && Find(msg.content).Some? && msg.channel in guildOf
    ensures r.ChannelLookupFailed? <==> msg.author != botId && Find(msg.content).Some? && msg.channel !in guildOf
    ensures r.Proposed? ==>
      var c := Find(msg.content).value;
      r.draft == Draft(c.name, c.teams, ParseRounds(c.rounds), ParseDate(c.date, year),
                       guildOf[msg.channel], msg.channel, msg.id)
  {
    if msg.author == botId then NotAProposal
    else
      match Find(msg.content)
      case None => NotAProposal
      case Some(c) =>
        if msg.channel !in guildOf then ChannelLookupFailed
        else Proposed(Draft(c.name, c.teams, ParseRounds(c.rounds), ParseDate(c.date, year),
                            guildOf[msg.channel], msg.channel, msg.id))
  }

  /**
   * A message yields a row only when it is not the bot's own and contains a
   * well-formed block; the row's name and teams are the leftmost block's.
   */
  lemma ProposeNeedsBlock(msg: Message, botId: string, year: int, guildOf: map<string, string>)
    ensures msg.author == botId ==> Propose(msg, botId, year, guildOf) == NotAProposal
    ensures (forall i, c :: !BlockAt(msg.content, i, c)) ==> Propose(msg, botId, year, guildOf) == NotAProposal
    ensures Propose(msg, botId, year, guildOf).Proposed? ==>
      var d := Propose(msg, botId, year, guildOf).draft;
      exists i, c :: BlockAt(msg.content, i, c) && c.name == d.name && c.teams == d.teams
  {
    FindSpec(msg.content);
    if Propose(msg, botId, year, guildOf).Proposed? {
      var c := Find(msg.content).value;
      var i :| BlockAt(msg.content, i, c) && forall j, c' :: 0 <= j < i ==> !BlockAt(msg.content, j, c');
    }
  }

  /**
   * End to end: a message whose leftmost block was written from a name, a
   * link, a round count and date fields is stored with exactly those
   * values, the date moved into the given year, and the guild of its channel.
   */
  lemma ProposeRoundTrip(
    msg: Message, botId: string, year: int, guildOf: map<string, string>,
    name: string, teams: string, rounds: nat, f: Fields)
    requires rounds <= MaxInt64
    requires InRange(f) && f.day < 100 && !(f.month == 2 && f.day == 29 && !IsLeap(year))
    requires Find(msg.content) == Some(Captures(name, teams, Decimal(rounds), FormatClock(f)))
    requires msg.author != botId && msg.channel in guildOf
    ensures Propose(msg, botId, year, guildOf) == Proposed(Draft(
      name, teams, rounds, DateTime(year, f.month, f.day, f.hour, f.minute),
      guildOf[msg.channel], msg.channel, msg.id))
  {
    RoundsRoundTrip(rounds);
    ParseDateRoundTrip(f, year);
  }

  /**
   * The sub-fields are not validated: a block in a known channel is stored
   * even when its rounds overflow 64 bits, which stores the largest 64-bit
   * count, or its date has a field out of range, which stores 1 January of
   * the next year.
   */
  lemma ProposeStoresMalformed(msg: Message, botId: string, year: int, guildOf: map<string, string>)
    requires msg.author != botId && msg.channel in guildOf && Find(msg.content).Some?
    ensures Propose(msg, botId, year, guildOf).Proposed?
    ensures DecimalValue(Find(msg.content).value.rounds) > MaxInt64 ==>
      Propose(msg, botId, year, guildOf).draft.rounds == MaxInt64
    ensures !InRange(FieldsOf(Find(msg.content).value.date)) ==>
      Propose(msg, botId, year, guildOf).draft.date == DateTime(year + 1, 1, 1, 0, 0)
  {
    if !InRange(FieldsOf(Find(msg.content).value.date)) {
      ParseDateOutOfRange(Find(msg.content).value.date, year);
    }
  }

  /** `COALESCE(Channel, '') = ''`: the row has not been provisioned. */
  predicate Unprovisioned(r: Row)
  {
    r.channel == None || r.channel == Some("")
  }

  /**
   * The activation query: unprovisioned and dated between now and one day
   * later, both ends included (`BETWEEN`).
   */
  predicate IsDue(r: Row, now: int)
  {
    Unprovisioned(r) && now <= Instant(r.draft.date) <= now + SecondsPerDay
  }

  predicate KeysIncreasing(rows: seq<Row>)
  {
    forall i, j :: 0 <= i < j < |rows| ==> rows[i].key < rows[j].key
  }

  /** The rows the activation query returns, in table order. */
  function DueRows(rows: seq<Row>, now: int): (due: seq<Row>)
    ensures forall r :: r in due <==> r in rows && IsDue(r, now)
    ensures KeysIncreasing(rows) ==> KeysIncreasing(due)
  {
    if rows == [] then []
    else
      var tail := DueRows(rows[1..], now);
      assert KeysIncreasing(rows) ==> forall r :: r in tail ==> rows[0].key < r.key;
      if IsDue(rows[0], now) then [rows[0]] + tail else tail
  }

  /** `UPDATE Drafts SET Channel = channel WHERE Draft_Key = key`. */
  function WithChannel(rows: seq<Row>, key: nat, channel: string): (r: seq<Row>)
    ensures |r| == |rows|
  {
    seq(|rows|, i requires 0 <= i < |rows| =>
      if rows[i].key == key then rows[i].(channel := Some(channel)) else rows[i])
  }

  /**
   * Writing a non-empty channel id activates the row for good: it is not
   * due at any time afterwards; every other row is left as it was, and no
   * row goes back from Activated to Proposed.
   */
  lemma WithChannelActivates(rows: seq<Row>, key: nat, channel: string)
    requires channel != ""
    ensures forall i, now :: 0 <= i < |rows| && rows[i].key == key ==> !IsDue(WithChannel(rows, key, channel)[i], now)
    ensures forall i :: 0 <= i < |rows| && rows[i].key != key ==> WithChannel(rows, key, channel)[i] == rows[i]
    ensures forall i :: 0 <= i < |rows| && !Unprovisioned(rows[i]) ==> !Unprovisioned(WithChannel(rows, key, channel)[i])
    ensures forall i :: 0 <= i < |rows| ==>
      WithChannel(rows, key, channel)[i].key == rows[i].key && WithChannel(rows, key, channel)[i].draft == rows[i].draft
  {
  }

  /** The Drafts table: its rows and the next value of its key sequence. */
  class DraftTable {
    var rows: seq<Row>
    var nextKey: nat

    /** Keys are handed out in increasing order, so they are unique. */
    ghost predicate Valid()
      reads this
    {
      KeysIncreasing(rows) && forall i :: 0 <= i < |rows| ==> rows[i].key < nextKey
    }

    constructor ()
      ensures Valid() && rows == [] && nextKey == 1
    {
      rows := [];
      nextKey := 1;
    }

    /** `INSERT INTO Drafts ...`: a new Proposed row with a fresh key. */
    method Insert(d: Draft) returns (key: nat)
      requires Valid()
      modifies this
      ensures Valid()
      ensures key == old(nextKey) && nextKey == old(nextKey) + 1
      ensures rows == old(rows) + [Row(key, d, None)]
    {
      key := nextKey;
      rows := rows + [Row(key, d, None)];
      nextKey := nextKey + 1;
    }

    /**
     * The proposal handler: builds the row for `msg` and inserts it; a
     * message that is not a proposal, or whose channel cannot be fetched,
     * leaves the table unchanged.
     */
    method Register(msg: Message, botId: string, year: int, guildOf: map<string, string>) returns (r: Registration)
      requires Valid()
      modifies this
      ensures Valid()
      ensures r == Propose(msg, botId, year, guildOf)
      ensures r.Proposed? ==> rows == old(rows) + [Row(old(nextKey), r.draft, None)] && nextKey == old(nextKey) + 1
      ensures !r.Proposed? ==> rows == old(rows) && nextKey == old(nextKey)
    {
      r := Propose(msg, botId, year, guildOf);
      if r.Proposed? {
        var _ := Insert(r.draft);
      }
    }

    /** The activation query over the current rows. */
    function Due(now: int): seq<Row>
      reads this
    {
      DueRows(rows, now)
    }

    /** Records the provisioned channel on the row with `key`. */
    method SetChannel(key: nat, channel: string)
      requires Valid()
      modifies this
      ensures Valid() && nextKey == old(nextKey)
      ensures rows == WithChannel(old(rows), key, channel)
    {
      rows := WithChannel(rows, key, channel);
    }
  }
}
