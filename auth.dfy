/** The sign-in and household state shared by every page: who is signed in, and the
    household they created or joined. */
module Auth {
  import opened Basics
  import Text

  datatype User = User(id: string, name: string, email: Option<string>, avatar: Option<string>)

  datatype Household = Household(id: string, name: string, inviteCode: string, members: seq<User>)

  const AvatarPrefix: string := "https://api.dicebear.com/7.x/avataaars/svg?seed="

  /** The generated avatar of a user who gave none: the avatar service seeded with the name. */
  function DefaultAvatar(name: string): (r: string)
    ensures |r| == |AvatarPrefix| + |name|
    ensures r[..|AvatarPrefix|] == AvatarPrefix && r[|AvatarPrefix|..] == name
  {
    AvatarPrefix + name
  }

  /** The seed of a generated avatar gives back the name it was made for. */
  lemma DefaultAvatarInjective(a: string, b: string)
    ensures DefaultAvatar(a) == DefaultAvatar(b) <==> a == b
  {
    if DefaultAvatar(a) == DefaultAvatar(b) {
      assert a == DefaultAvatar(a)[|AvatarPrefix|..];
    }
  }

  /** The user `login` stores: an absent or empty avatar is replaced by the generated one. */
  function NewUser(name: string, email: Option<string>, avatar: Option<string>, id: string): (u: User)
    ensures u.id == id && u.name == name && u.email == email
    ensures avatar.Some? && avatar.value != [] ==> u.avatar == avatar
    ensures avatar.None? || avatar == Some([]) ==> u.avatar == Some(DefaultAvatar(name))
    ensures u.avatar.Some? && u.avatar.value != []
  {
    User(id, name, email, if avatar.Some? && avatar.value != [] then avatar else Some(DefaultAvatar(name)))
  }

  /** The simulated Google account `loginWithGoogle` signs in with. */
  const GoogleName: string := "Stonie (Google)"
  const GoogleEmail: string := "stonie@gmail.com"

  /** The two members the demo household already has. */
  const Mom: User := User("mom", "Mom", None, Some(DefaultAvatar("Mom")))
  const Dad: User := User("dad", "Dad", None, Some(DefaultAvatar("Dad")))

  /** The join rule: the demo code, or any code of six UTF-16 code units. */
  predicate JoinAccepts(code: string) {
    code == "DEMO123" || Text.Utf16Length(code) == 6
  }

  /** For codes without characters outside the Basic Multilingual Plane, the length test is
      a test on the number of characters. */
  lemma JoinAcceptsBmp(code: string)
    requires forall i :: 0 <= i < |code| ==> code[i] as int < 0x1_0000
    ensures JoinAccepts(code) <==> code == "DEMO123" || |code| == 6
  {
  }

  /** The demo code and any six-character code are accepted. */
  lemma JoinCodesAccepted()
    ensures JoinAccepts("DEMO123") && JoinAccepts("ABC123") && JoinAccepts("DEMO12")
  {
    JoinAcceptsBmp("ABC123");
    JoinAcceptsBmp("DEMO12");
  }

  /** A seven-character code other than the demo code is refused, and so are the empty and
      the eight-character code. */
  lemma JoinCodesRefused()
    ensures !JoinAccepts("DEMO124") && !JoinAccepts("") && !JoinAccepts("DEMO1234")
  {
    JoinAcceptsBmp("DEMO124");
    JoinAcceptsBmp("DEMO1234");
  }

  /** The household `joinHousehold` puts the user in. */
  function DemoHousehold(code: string, u: User): (h: Household)
    ensures h.id == "demo-house" && h.name == "The Stonies" && h.inviteCode == code
    ensures |h.members| == 3 && h.members[..2] == [Mom, Dad] && h.members[2] == u
  {
    Household("demo-house", "The Stonies", code, [Mom, Dad, u])
  }

  /** The signed-in user and their household. */
  class Session {
    var user: Option<User>
    var household: Option<Household>

    /** Nobody without a household: every operation that sets a household needs a user,
        and signing out clears both. */
    ghost predicate Valid()
      reads this
    {
      household.Some? ==> user.Some?
    }

    constructor ()
      ensures Valid() && user.None? && household.None?
    {
      user := None;
      household := None;
    }

    /** `isAuthenticated`. */
    function IsAuthenticated(): (r: bool)
      reads this
      ensures r <==> user.Some?
    {
      user.Some?
    }

    method Login(name: string, email: Option<string>, avatar: Option<string>, id: string)
      requires Valid()
      modifies this
      ensures Valid() && IsAuthenticated()
      ensures user == Some(NewUser(name, email, avatar, id)) && household == old(household)
    {
      user := Some(NewUser(name, email, avatar, id));
    }

    /** `loginWithGoogle`, once its delay has passed: the simulated account with its generated
        avatar. */
    method LoginWithGoogle(id: string)
      requires Valid()
      modifies this
      ensures Valid()
      ensures user == Some(User(id, GoogleName, Some(GoogleEmail), Some(DefaultAvatar(GoogleName))))
      ensures household == old(household)
    {
      Login(GoogleName, Some(GoogleEmail), Some(DefaultAvatar(GoogleName)), id);
    }

    method Logout()
      modifies this
      ensures Valid() && !IsAuthenticated() && household.None?
    {
      user := None;
      household := None;
    }

    /** `createHousehold`: without a user nothing happens; otherwise the user alone is the
        household's member. The invite code is an opaque parameter. */
    method CreateHousehold(name: string, id: string, inviteCode: string)
      requires Valid()
      modifies this
      ensures Valid() && user == old(user)
      ensures old(user).None? ==> household == old(household)
      ensures old(user).Some? ==> household == Some(Household(id, name, inviteCode, [old(user).value]))
    {
      if user.None? {
        return;
      }
      household := Some(Household(id, name, inviteCode, [user.value]));
    }

    /** `joinHousehold`: succeeds exactly for a signed-in user with an accepted code, and then
        puts the user last in the demo household; on failure nothing changes. */
    method JoinHousehold(code: string) returns (ok: bool)
      requires Valid()
      modifies this
      ensures Valid() && user == old(user)
      ensures ok <==> old(user).Some? && JoinAccepts(code)
      ensures ok ==> household == Some(DemoHousehold(code, old(user).value))
      ensures !ok ==> household == old(household)
    {
      if user.None? {
        return false;
      }
      if code == "DEMO123" || Text.Utf16Length(code) == 6 {
        household := Some(DemoHousehold(code, user.value));
        return true;
      }
      return false;
    }
  }
}
