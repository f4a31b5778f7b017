/** The access middleware: which requests may proceed, and the one message a
    refused user is sent. */
module Auth {
  import opened Results
  import opened Repositories

  /** The two refusal texts, by meaning. */
  datatype Notice = AccessBlocked | AdminOnly

  datatype Message = Message(chatId: int, notice: Notice)

  /** Whether the request may proceed, and the messages sent on the way. */
  datatype Decision = Decision(allowed: bool, sent: seq<Message>)

  /** `handle`: a user not yet in the directory is let through (so that
      `/start` can register them), a blocked user is refused with one message,
      any other user is let through silently. */
  function Authorize(users: Directory, telegramId: int): (d: Decision)
    ensures d.allowed <==> telegramId !in users || !users[telegramId].isBlocked
    ensures d.allowed ==> d.sent == []
    ensures !d.allowed ==> d.sent == [Message(telegramId, AccessBlocked)]
  {
    match FindByTelegramId(users, telegramId)
    case None => Decision(true, [])
    case Some(u) =>
      if u.isBlocked then Decision(false, [Message(telegramId, AccessBlocked)]) else Decision(true, [])
  }

  /** `isAdmin`: granted exactly to a known user with the admin flag; everyone
      else is refused with one message. */
  function AdminCheck(users: Directory, telegramId: int): (d: Decision)
    ensures d.allowed <==> telegramId in users && users[telegramId].isAdmin
    ensures d.allowed ==> d.sent == []
    ensures !d.allowed ==> d.sent == [Message(telegramId, AdminOnly)]
  {
    match FindByTelegramId(users, telegramId)
    case Some(u) =>
      if u.isAdmin then Decision(true, []) else Decision(false, [Message(telegramId, AdminOnly)])
    case None => Decision(false, [Message(telegramId, AdminOnly)])
  }

  /** Both checks notify exactly when they refuse, and only the user asking. */
  lemma RefusedIffNotified(users: Directory, telegramId: int)
    ensures Authorize(users, telegramId).allowed <==> Authorize(users, telegramId).sent == []
    ensures AdminCheck(users, telegramId).allowed <==> AdminCheck(users, telegramId).sent == []
    ensures forall m :: m in Authorize(users, telegramId).sent + AdminCheck(users, telegramId).sent ==> m.chatId == telegramId
  {
  }

  /** The admin check does not look at the block flag: a blocked admin is
      refused by `handle` yet passes `isAdmin`, and `isAdmin` never lets an
      unknown user through although `handle` does. */
  lemma AdminCheckIndependentOfBlock(users: Directory, telegramId: int)
    ensures telegramId in users && users[telegramId].isAdmin && users[telegramId].isBlocked ==>
              !Authorize(users, telegramId).allowed && AdminCheck(users, telegramId).allowed
    ensures telegramId !in users ==> Authorize(users, telegramId).allowed && !AdminCheck(users, telegramId).allowed
  {
  }

  /** The middleware object: the directory it reads and the messages it has
      sent. */
  class AuthMiddleware {
    const users: Directory
    var outbox: seq<Message>

    constructor (users: Directory)
      ensures this.users == users && outbox == []
    {
      this.users := users;
      outbox := [];
    }

    /** `handle`. */
    method Handle(telegramId: int) returns (allowed: bool)
      modifies this
      ensures allowed == Authorize(users, telegramId).allowed
      ensures outbox == old(outbox) + Authorize(users, telegramId).sent
    {
      var user := FindByTelegramId(users, telegramId);
      if user.None? {
        return true;
      }
      if user.value.isBlocked {
        outbox := outbox + [Message(telegramId, AccessBlocked)];
        return false;
      }
      return true;
    }

    /** `isAdmin`. */
    method IsAdmin(telegramId: int) returns (allowed: bool)
      modifies this
      ensures allowed == AdminCheck(users, telegramId).allowed
      ensures outbox == old(outbox) + AdminCheck(users, telegramId).sent
    {
      var user := FindByTelegramId(users, telegramId);
      if user.Some? && user.value.isAdmin {
        return true;
      }
      outbox := outbox + [Message(telegramId, AdminOnly)];
      return false;
    }
  }
}
