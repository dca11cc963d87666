/**
 * The `User` entity of the backend (`entity/User.java`): its column
 * defaults, the `@PrePersist` hook and the derived display texts. Times are
 * whole seconds; `metadata` values are kept as their text.
 */
module BackendUser {
  import opened Wrappers

  const DefaultAvatar: string := "/api/avatars/default-avatar.png"

  /** A persisted row of the `users` table. */
  datatype UserRow = UserRow(
    id: int,
    username: string,
    password: string,
    email: string,
    gender: int,
    avatarUrl: Option<string>,
    status: int,
    role: string,
    studentId: Option<string>,
    major: Option<string>,
    college: Option<string>,
    grade: Option<string>,
    createdAt: Option<int>,
    lastLoginAt: Option<int>,
    metadata: Option<map<string, string>>)

  /** `getGenderText()` */
  function GenderText(gender: int): (t: string)
    ensures t == "男" <==> gender == 1
    ensures t == "女" <==> gender == 2
    ensures t == "未知" <==> gender != 1 && gender != 2
  {
    if gender == 1 then "男" else if gender == 2 then "女" else "未知"
  }

  /** `getStatusText()` */
  function StatusText(status: int): (t: string)
    ensures t == "正常" <==> status == 1
    ensures t == "禁用" <==> status != 1
  {
    if status == 1 then "正常" else "禁用"
  }

  /** `getAvatar()` */
  function AvatarOf(avatarUrl: Option<string>): (a: string)
    ensures a != ""
    ensures avatarUrl.Some? && avatarUrl.value != "" ==> a == avatarUrl.value
    ensures avatarUrl.None? || avatarUrl == Some("") ==> a == DefaultAvatar
  {
    if avatarUrl.None? || avatarUrl.value == "" then DefaultAvatar else avatarUrl.value
  }

  class User {
    var id: Option<int>
    var username: string
    var password: string
    var email: string
    var gender: int
    var avatarUrl: Option<string>
    var status: int
    var role: string
    var studentId: Option<string>
    var major: Option<string>
    var college: Option<string>
    var grade: Option<string>
    var createdAt: Option<int>
    var lastLoginAt: Option<int>
    var metadata: Option<map<string, string>>

    /**
     * `new User()`: the field initialisers; the text columns start unset.
     * Java leaves `username`, `password` and `email` null; they are `""`
     * here, because no modelled path reads them before a setter writes them.
     */
    constructor()
      ensures id == None && gender == 0 && status == 1 && role == "user"
      ensures metadata == Some(map[]) && createdAt == None && lastLoginAt == None
      ensures avatarUrl == None && studentId == None && major == None && college == None && grade == None
      ensures username == "" && password == "" && email == ""
    {
      id := None;
      username := "";
      password := "";
      email := "";
      gender := 0;
      avatarUrl := None;
      status := 1;
      role := "user";
      studentId := None;
      major := None;
      college := None;
      grade := None;
      createdAt := None;
      lastLoginAt := None;
      metadata := Some(map[]);
    }

    /** The account setters `register` calls: `setUsername` to `setRole`. */
    method SetForm(name: string, secret: string, mail: string, sex: int)
      modifies this`username, this`password, this`email, this`gender, this`status, this`role
      ensures username == name && password == secret && email == mail
      ensures gender == sex && status == 1 && role == "user"
    {
      username, password, email := name, secret, mail;
      gender, status, role := sex, 1, "user";
    }

    /** The optional profile setters `register` calls, and `setMetadata`. */
    method SetProfile(sid: Option<string>, maj: Option<string>, col: Option<string>,
                      gr: Option<string>, meta: map<string, string>)
      modifies this`studentId, this`major, this`college, this`grade, this`metadata
      ensures studentId == sid && major == maj && college == col && grade == gr
      ensures metadata == Some(meta)
    {
      studentId, major, college, grade := sid, maj, col, gr;
      metadata := Some(meta);
    }

    /** `onCreate()`: fills the creation time and the metadata only where they are unset. */
    method OnCreate(now: int)
      modifies this`createdAt, this`metadata
      ensures createdAt == if old(createdAt).None? then Some(now) else old(createdAt)
      ensures metadata == if old(metadata).None? then Some(map[]) else old(metadata)
      ensures createdAt.Some? && metadata.Some?
    {
      if createdAt.None? {
        createdAt := Some(now);
      }
      if metadata.None? {
        metadata := Some(map[]);
      }
    }

    /** A second `onCreate` changes nothing. */
    method OnCreateTwice(now: int, later: int)
      modifies this`createdAt, this`metadata
      ensures createdAt == if old(createdAt).None? then Some(now) else old(createdAt)
      ensures metadata == if old(metadata).None? then Some(map[]) else old(metadata)
    {
      OnCreate(now);
      OnCreate(later);
    }

    function GetGenderText(): (t: string)
      reads this
      ensures t == GenderText(gender)
      ensures t == "男" <==> gender == 1
    {
      GenderText(gender)
    }

    function GetStatusText(): (t: string)
      reads this
      ensures t == "正常" <==> status == 1
    {
      StatusText(status)
    }

    function GetAvatar(): (a: string)
      reads this
      ensures a == AvatarOf(avatarUrl)
      ensures avatarUrl.Some? && avatarUrl.value != "" ==> a == avatarUrl.value
    {
      AvatarOf(avatarUrl)
    }

    /** The row `save` persists, with the id the database assigned. */
    function Row(assignedId: int): (r: UserRow)
      reads this
      ensures r.id == assignedId && r.username == username && r.email == email && r.status == status
      ensures r.studentId == studentId && r.password == password && r.createdAt == createdAt
    {
      UserRow(assignedId, username, password, email, gender, avatarUrl, status, role,
              studentId, major, college, grade, createdAt, lastLoginAt, metadata)
    }
  }
}
