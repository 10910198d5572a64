/**
 * The older users context: a search that hides the system bot account from
 * server results but answers a search for the bot's name locally, and a
 * lookup by id that answers the bot's aliases locally and reads any failed
 * request as "no such user". Each server reply is a parameter; `requested`
 * says whether the request would be sent at all.
 */
module LegacyUsers {
  import opened Wrappers
  import opened Text
  import opened Subsequences
  import opened ClientUser

  const BotName := "IA System Bot"
  const BotId := "ia-system-bot"
  const BotConstant := "IA_SYSTEM_BOT"
  const BotEmail := "bot@worklyst.ai"
  const BotInitials := "AI"

  /** The record a search for the bot's name answers with. */
  const BotSearchRecord := User(Some(BotId), Some(BotName), Some(BotName), Some(BotEmail), Some(BotInitials))

  /** The record a lookup of one of the bot's ids answers with: the same, without `usuario`. */
  const BotRecord := User(Some(BotId), Some(BotName), None, Some(BotEmail), Some(BotInitials))

  /** How a request ends: data, an HTTP error status (404 included), or no response. */
  datatype Response<T> = Ok(data: T) | HttpError(status: nat) | NetworkError

  datatype Search = Search(requested: bool, users: seq<User>)
  datatype Lookup = Lookup(requested: bool, user: Option<User>)

  /** A user the search hides: the bot by either id or by its display name. */
  predicate IsBot(u: User) {
    u.id == Some(BotName) || u.id == Some(BotId) || u.nombre == Some(BotName)
  }

  /** `res.data.filter(...)`: the users that are not the bot, in server order. */
  function WithoutBots(users: seq<User>): (r: seq<User>)
    ensures forall u :: u in r <==> u in users && !IsBot(u)
    ensures forall u :: multiset(r)[u] == if IsBot(u) then 0 else multiset(users)[u]
    ensures IsSubsequence(r, users)
  {
    if users == [] then []
    else
      assert users == [users[0]] + users[1..];
      if IsBot(users[0]) then WithoutBots(users[1..])
      else [users[0]] + WithoutBots(users[1..])
  }

  /** `searchUsers`. */
  function SearchUsers(query: string, response: Response<seq<User>>): (r: Search)
    ensures r.requested <==> query != [] && Trim(query) != BotName
    ensures query == [] ==> r.users == []
    ensures query != [] && Trim(query) == BotName ==> r.users == [BotSearchRecord]
    ensures r.requested ==> forall u :: u in r.users ==> !IsBot(u)
    ensures r.requested && response.Ok? ==> IsSubsequence(r.users, response.data)
                                            && forall u :: u in response.data && !IsBot(u) ==> u in r.users
    ensures r.requested && response.Ok?
            ==> forall u :: multiset(r.users)[u] == if IsBot(u) then 0 else multiset(response.data)[u]
    ensures r.requested && !response.Ok? ==> r.users == []
  {
    if query == [] then Search(false, [])
    else if Trim(query) == BotName then Search(false, [BotSearchRecord])
    else match response
      case Ok(list) => Search(true, WithoutBots(list))
      case _ => Search(true, [])
  }

  /** `getUserById`. */
  function GetUserById(id: Option<string>, response: Response<User>): (r: Lookup)
    ensures r.requested <==> Truthy(id) && id.value !in {BotName, BotId, BotConstant}
    ensures !r.requested ==> r.user == if Truthy(id) then Some(BotRecord) else None
    ensures r.requested ==> r.user == if response.Ok? then Some(response.data) else None
  {
    if !Truthy(id) then Lookup(false, None)
    else if id.value == BotName || id.value == BotId || id.value == BotConstant then Lookup(false, Some(BotRecord))
    else match response
      case Ok(user) => Lookup(true, Some(user))
      case _ => Lookup(true, None)
  }

  /** A search never returns the bot unless it was asked for by name. */
  lemma SearchShowsBotOnlyByName(query: string, response: Response<seq<User>>, u: User)
    requires u in SearchUsers(query, response).users && IsBot(u)
    ensures Trim(query) == BotName && u == BotSearchRecord
  {
  }

  /** The bot's name with white space around it is answered locally, whatever the server would say. */
  lemma PaddedBotNameAnsweredLocally(pre: string, post: string, response: Response<seq<User>>)
    requires AllSpace(pre) && AllSpace(post)
    ensures SearchUsers(pre + BotName + post, response) == Search(false, [BotSearchRecord])
  {
    TrimPadded(pre, BotName, post);
  }

  /** White space alone is a real query: it is sent to the server. */
  lemma BlankQuerySent(query: string, response: Response<seq<User>>)
    requires query != [] && AllSpace(query)
    ensures SearchUsers(query, response).requested
  {
    TrimAllSpace(query);
  }

  /** A missing user (404) and a network failure look the same to the caller. */
  lemma LookupFailuresIndistinguishable(id: Option<string>, status: nat)
    ensures GetUserById(id, HttpError(status)) == GetUserById(id, NetworkError)
    ensures Truthy(id) && id.value !in {BotName, BotId, BotConstant}
            ==> GetUserById(id, HttpError(404)).user.None?
  {
  }

  /** The two local bot records differ only in `usuario`, and both are bots. */
  lemma BotRecordsAgree()
    ensures BotSearchRecord.(usuario := None) == BotRecord
    ensures IsBot(BotSearchRecord) && IsBot(BotRecord)
  {
  }
}
