/** The registration handler (src/controllers/user.controllers.js) and the
    parts of the User schema (src/models/user.models.js) it runs into. */
module Users {

  import opened Common
  import opened Store
  import opened Media

  // ---------------------------------------------------------------------------
  // Required-field validation
  // ---------------------------------------------------------------------------

  /** The body fields registration requires, in the order they are checked. */
  function RequiredFields(fullname: Option<string>, email: Option<string>, username: Option<string>,
                          password: Option<string>): seq<(string, Option<string>)>
  {
    [("fullname", fullname), ("email", email), ("username", username), ("password", password)]
  }

  /** The 400 message naming a missing field. */
  function RequiredMessage(key: string): string {
    key + " is required and must be a non-empty string"
  }

  /** The validation loop: the index of the first field that is not a
      non-blank string, if any. */
  method FirstInvalidField(fields: seq<(string, Option<string>)>) returns (r: Option<nat>)
    ensures r.Some? ==> r.value < |fields| && Blank(fields[r.value].1)
    ensures r.Some? ==> forall j :: 0 <= j < r.value ==> !Blank(fields[j].1)
    ensures r.None? ==> forall j :: 0 <= j < |fields| ==> !Blank(fields[j].1)
  {
    var i := 0;
    while i < |fields|
      invariant 0 <= i <= |fields|
      invariant forall j :: 0 <= j < i ==> !Blank(fields[j].1)
    {
      if Blank(fields[i].1) {
        return Some(i);
      }
      i := i + 1;
    }
    r := None;
  }

  /** The validation step of registerUser: the 400 message naming the first
      of fullname, email, username, password that is not a non-blank string. */
  method CheckRequiredFields(fullname: Option<string>, email: Option<string>, username: Option<string>,
                             password: Option<string>) returns (problem: Option<string>)
    ensures Blank(fullname) ==> problem == Some(RequiredMessage("fullname"))
    ensures !Blank(fullname) && Blank(email) ==> problem == Some(RequiredMessage("email"))
    ensures !Blank(fullname) && !Blank(email) && Blank(username) ==> problem == Some(RequiredMessage("username"))
    ensures !Blank(fullname) && !Blank(email) && !Blank(username) && Blank(password) ==>
              problem == Some(RequiredMessage("password"))
    ensures problem.None? <==> !Blank(fullname) && !Blank(email) && !Blank(username) && !Blank(password)
  {
    var fields := RequiredFields(fullname, email, username, password);
    assert fields[0] == ("fullname", fullname) && fields[1] == ("email", email);
    assert fields[2] == ("username", username) && fields[3] == ("password", password);
    var invalid := FirstInvalidField(fields);
    if invalid.Some? {
      return Some(RequiredMessage(fields[invalid.value].0));
    }
    problem := None;
  }

  // ---------------------------------------------------------------------------
  // Existing users and the unique indexes
  // ---------------------------------------------------------------------------

  /** The conflict lookup: some user already has the username or the email.
      The handler lower-cases both values, and Mongoose runs the schema's
      `trim` and `lowercase` setters on them when it casts the query, so what
      is compared is the trimmed, lower-cased value, which is what gets stored.
      (Trimming removes white space only, so lower-casing before it changes
      nothing.) */
  predicate Conflicts(users: map<Id, User>, username: string, email: string) {
    exists k :: k in users && (users[k].username == ToLower(Trim(username)) || users[k].email == ToLower(Trim(email)))
  }

  /** The unique indexes on `username` and `email`: some user already holds
      one of the values about to be stored. */
  predicate Taken(users: map<Id, User>, username: string, email: string) {
    exists k :: k in users && (users[k].username == username || users[k].email == email)
  }

  // ---------------------------------------------------------------------------
  // The document handed to the schema
  // ---------------------------------------------------------------------------

  /** A document after Mongoose has cast it against the User schema: the
      declared paths it sets. A path the schema does not declare is dropped
      (strict mode), so it has no place here. */
  datatype Document = Document(username: string, email: string, fullName: Option<string>,
                               avatar: string, coverImage: string, password: string)

  /** Schema validation: every required path (username, email, fullName,
      avatar, password) is present and not the empty string. */
  predicate SchemaAccepts(doc: Document) {
    && doc.username != "" && doc.email != "" && doc.fullName.Some? && doc.fullName.value != ""
    && doc.avatar != "" && doc.password != ""
  }

  /** `avatar?.url || ''`: the url of an upload result, or '' when there is none. */
  function UrlOrEmpty(u: Upload): (url: string)
    ensures u.Uploaded? ==> url == u.url
    ensures !u.Uploaded? ==> url == ""
  {
    if u.Uploaded? then u.url else ""
  }

  /** The document as written: the full name is sent as `fullname`, a path
      the schema does not declare (it declares `fullName`), so the cast
      document has no full name. */
  function NewUserDocAsWritten(fullname: string, email: string, username: string, password: string,
                               avatar: string, coverImage: string): (doc: Document)
    ensures doc.fullName.None?
  {
    Document(ToLower(Trim(username)), ToLower(Trim(email)), None, avatar, coverImage, password)
  }

  /** As written, no registration passes schema validation, whatever its input. */
  lemma RegistrationAlwaysRejectedAsWritten(fullname: string, email: string, username: string,
                                            password: string, avatar: string, coverImage: string)
    ensures !SchemaAccepts(NewUserDocAsWritten(fullname, email, username, password, avatar, coverImage))
  {
  }

  /** The document as intended: the full name under the schema's `fullName`. */
  function NewUserDoc(fullname: string, email: string, username: string, password: string,
                      avatar: string, coverImage: string): (doc: Document)
    ensures doc.fullName == Some(Trim(fullname)) && doc.avatar == avatar && doc.password == password
    ensures doc.email == ToLower(Trim(email)) && doc.username == ToLower(Trim(username))
    ensures doc.coverImage == coverImage
  {
    Document(ToLower(Trim(username)), ToLower(Trim(email)), Some(Trim(fullname)), avatar, coverImage, password)
  }

  /** With every required field non-blank, the intended document passes
      validation exactly when the avatar url is non-empty. */
  lemma {:induction false} DocAcceptedIffAvatar(fullname: string, email: string, username: string,
                                                password: string, avatar: string, coverImage: string)
    requires !Blank(Some(fullname)) && !Blank(Some(email)) && !Blank(Some(username)) && !Blank(Some(password))
    ensures SchemaAccepts(NewUserDoc(fullname, email, username, password, avatar, coverImage)) <==> avatar != ""
  {
    BlankMeansWhiteSpace(Some(password));
    assert |ToLower(Trim(email))| == |Trim(email)|;
    assert |ToLower(Trim(username))| == |Trim(username)|;
  }

  /** The 500 message when creation fails (the typo is the source's). */
  const CreateFailed: string := "Something went wrong while registering a user and immages were deleted"

  /** What the response carries of a user: everything but the password. */
  datatype Profile = Profile(id: Id, username: string, email: string, fullname: string,
                             avatar: string, coverImage: string, watchHistory: seq<Id>)

  function PublicView(u: User): (p: Profile)
    ensures p.id == u.id && p.username == u.username && p.email == u.email
    ensures p.fullname == u.fullname && p.watchHistory == u.watchHistory
    ensures p.avatar == u.avatar && p.coverImage == u.coverImage
  {
    Profile(u.id, u.username, u.email, u.fullname, u.avatar, u.coverImage, u.watchHistory)
  }

  // ---------------------------------------------------------------------------
  // registerUser
  // ---------------------------------------------------------------------------

  /** The user a successful registration stores: names trimmed, username and
      email lower-cased, the full name lower-cased by the schema, and an empty
      watch history. */
  function NewUser(newId: Id, fullname: string, email: string, username: string, password: string,
                   avatar: string, coverImage: string): (u: User)
    ensures u.id == newId && u.watchHistory == []
    ensures u.username == ToLower(Trim(username)) && u.email == ToLower(Trim(email))
    ensures u.fullname == ToLower(Trim(fullname)) && u.password == password
    ensures u.avatar == avatar && u.coverImage == coverImage
  {
    User(newId, ToLower(Trim(username)), ToLower(Trim(email)), ToLower(Trim(fullname)), avatar,
         coverImage, password, [])
  }

  /** registerUser. Outcomes, in order: the first blank required field (400),
      an existing user with the normalised username or email (409), no avatar file
      (400), a failing avatar upload (500), a failing cover upload (500), a
      document the schema or a unique index refuses (500); otherwise the new
      user, without its password (201). */
  method RegisterUser(db: Database, fullname: Option<string>, email: Option<string>,
                      username: Option<string>, password: Option<string>,
                      hasAvatar: bool, avatarUpload: Upload, hasCover: bool, coverUpload: Upload,
                      newId: Id) returns (r: Response<Profile>)
    requires db.Valid() && newId !in db.users
    modifies db`users
    ensures db.Valid()
    ensures Blank(fullname) ==> r == Error(400, RequiredMessage("fullname"))
    ensures !Blank(fullname) && Blank(email) ==> r == Error(400, RequiredMessage("email"))
    ensures !Blank(fullname) && !Blank(email) && Blank(username) ==> r == Error(400, RequiredMessage("username"))
    ensures !Blank(fullname) && !Blank(email) && !Blank(username) && Blank(password) ==>
              r == Error(400, RequiredMessage("password"))
    ensures !Blank(fullname) && !Blank(email) && !Blank(username) && !Blank(password) ==>
              var clash := Conflicts(old(db.users), username.value, email.value);
              && (clash ==> r == Error(409, "User with email or username already exists"))
              && (!clash && !hasAvatar ==> r == Error(400, "avatar file is missing"))
              && (!clash && hasAvatar && avatarUpload.Threw? ==> r == Error(500, "Failed to upload avatar"))
              && (!clash && hasAvatar && !avatarUpload.Threw? && hasCover && coverUpload.Threw? ==>
                    r == Error(500, "Failed to upload cover image"))
    ensures r.Error? ==> db.users == old(db.users)
    ensures r.Ok? ==>
              && !Blank(fullname) && !Blank(email) && !Blank(username) && !Blank(password)
              && !Conflicts(old(db.users), username.value, email.value)
              && hasAvatar && !avatarUpload.Threw? && !(hasCover && coverUpload.Threw?)
    ensures !Blank(fullname) && !Blank(email) && !Blank(username) && !Blank(password)
            && !Conflicts(old(db.users), username.value, email.value)
            && hasAvatar && !avatarUpload.Threw? && !(hasCover && coverUpload.Threw?) ==>
              var avatar := UrlOrEmpty(avatarUpload);
              var cover := if hasCover then UrlOrEmpty(coverUpload) else "";
              var u := NewUser(newId, fullname.value, email.value, username.value, password.value, avatar, cover);
              && (avatar == "" || Taken(old(db.users), u.username, u.email) ==>
                    r == Error(500, CreateFailed))
              && (avatar != "" && !Taken(old(db.users), u.username, u.email) ==>
                    r == Ok(201, PublicView(u)) && db.users == old(db.users)[newId := u])
  {
    var problem := CheckRequiredFields(fullname, email, username, password);
    if problem.Some? {
      return Error(400, problem.value);
    }
    if Conflicts(db.users, username.value, email.value) {
      return Error(409, "User with email or username already exists");
    }
    if !hasAvatar {
      return Error(400, "avatar file is missing");
    }
    if avatarUpload.Threw? {
      return Error(500, "Failed to upload avatar");
    }
    var cover := "";
    if hasCover {
      if coverUpload.Threw? {
        return Error(500, "Failed to upload cover image");
      }
      cover := UrlOrEmpty(coverUpload);
    }
    var avatar := UrlOrEmpty(avatarUpload);
    r := CreateUser(db, newId, fullname.value, email.value, username.value, password.value, avatar, cover);
  }

  /** The creation step of registerUser: the document goes through schema
      validation and the unique indexes; a refusal ends in 500, otherwise the
      user is stored and returned without its password (201). */
  method CreateUser(db: Database, newId: Id, fullname: string, email: string, username: string,
                    password: string, avatar: string, cover: string) returns (r: Response<Profile>)
    requires db.Valid() && newId !in db.users
    requires !Blank(Some(fullname)) && !Blank(Some(email)) && !Blank(Some(username)) && !Blank(Some(password))
    modifies db`users
    ensures db.Valid()
    ensures var u := NewUser(newId, fullname, email, username, password, avatar, cover);
            && (avatar == "" || Taken(old(db.users), u.username, u.email) ==>
                  r == Error(500, CreateFailed)
                  && db.users == old(db.users))
            && (avatar != "" && !Taken(old(db.users), u.username, u.email) ==>
                  r == Ok(201, PublicView(u)) && db.users == old(db.users)[newId := u])
  {
    var doc := NewUserDoc(fullname, email, username, password, avatar, cover);
    var user := NewUser(newId, fullname, email, username, password, avatar, cover);
    DocAcceptedIffAvatar(fullname, email, username, password, avatar, cover);
    if !SchemaAccepts(doc) || Taken(db.users, user.username, user.email) {
      return Error(500, CreateFailed);
    }
    NewUserKeepsUsersOk(db.users, user);
    db.users := db.users[newId := user];
    assert UsersOk(db.users);
    r := Ok(201, PublicView(user));
  }

  /** Storing a user whose username and email are free keeps the users
      collection consistent. */
  lemma {:induction false} NewUserKeepsUsersOk(users: map<Id, User>, u: User)
    requires UsersOk(users) && u.id !in users && u.watchHistory == []
    requires !Taken(users, u.username, u.email)
    ensures UsersOk(users[u.id := u])
  {
    var m := users[u.id := u];
    forall k, k' | k in m && k' in m && k != k'
      ensures m[k].username != m[k'].username && m[k].email != m[k'].email
    {
      if k == u.id {
        assert users[k'] == m[k'];
      } else if k' == u.id {
        assert users[k] == m[k];
      }
    }
  }

  /** The conflict lookup refuses exactly the requests whose normalised
      username or email the unique indexes would refuse. */
  lemma {:induction false} ConflictsIsTaken(users: map<Id, User>, username: string, email: string)
    ensures Conflicts(users, username, email) <==> Taken(users, ToLower(Trim(username)), ToLower(Trim(email)))
  {
    if Taken(users, ToLower(Trim(username)), ToLower(Trim(email))) {
      var k :| k in users && (users[k].username == ToLower(Trim(username)) || users[k].email == ToLower(Trim(email)));
    }
  }

  /** Registering again with a username that normalises to a stored one,
      once the first registration is stored, runs into the conflict lookup (409). */
  lemma {:induction false} SecondRegistrationConflicts(users: map<Id, User>, u: User, username: string, email: string)
    requires u.id in users && users[u.id] == u
    requires u.username == ToLower(Trim(username))
    ensures Conflicts(users, username, email)
  {
    assert users[u.id].username == ToLower(Trim(username));
  }

  /** Lower-casing a string without capitals changes nothing. */
  lemma {:induction false} ToLowerNoCapitals(s: string)
    requires forall i :: 0 <= i < |s| ==> !('A' <= s[i] <= 'Z')
    ensures ToLower(s) == s
  {
  }

  /** Trimming the padded name ' bob' gives 'bob'. */
  lemma {:induction false} TrimPaddedBob()
    ensures Trim(" bob") == "bob"
  {
    assert LeadingSpaces("bob") == 0;
    assert LeadingSpaces(" bob") == 1 + LeadingSpaces("bob");
    assert TrailingSpaces("bob") == 0;
  }

  /** A username sent with a leading blank meets the conflict lookup of the
      stored name it trims to: the client gets 409, not a unique-index 500. */
  lemma {:induction false} PaddedUsernameConflicts(users: map<Id, User>, k: Id, u: User)
    requires users == map[k := u] && u.username == "bob"
    ensures Conflicts(users, " bob", "other@mail.io")
  {
    TrimPaddedBob();
    ToLowerNoCapitals("bob");
    assert users[k].username == ToLower(Trim(" bob"));
  }
}
