/**
 * Users of models.py: the `User` object with its defaulting chain, `create_user`
 * (the user document built from a registration dict, inserted into `users`),
 * and the lookups `get_user` and `get_user_by_email`.
 */
module Users {
  import opened Wrappers
  import opened Documents
  import opened DocStore

  /** The exceptions these functions let escape (`ValueError` for a duplicate user). */
  datatype UserError =
    | KeyMissing(field: string)   // a `KeyError` on a subscript
    | NotText(field: string)      // `.split` or `.lower` on a value that is not a string
    | UserExists                  // the store's `DuplicateKeyError`, re-raised as `ValueError`

  /** The fields `User.__init__` assigns. */
  datatype User = User(id: Value, email: Value, username: Value, role: Value, displayName: Value,
                       isAdmin: Value, setupComplete: Value, coinBalance: Value,
                       language: Value, darkMode: Value)

  /** Python's `a or b`. */
  function Or(a: Value, b: Value): (v: Value)
    ensures Truthy(a) ==> v == a
    ensures !Truthy(a) ==> v == b
  {
    if Truthy(a) then a else b
  }

  /** `s.split('@')[0]`: the text before the first `@`, or all of `s` when it has none. */
  function LocalPart(s: string): (r: string)
    ensures '@' !in r
    ensures r <= s
    ensures |r| < |s| ==> s[|r|] == '@'
  {
    if s == [] || s[0] == '@' then []
    else [s[0]] + LocalPart(s[1..])
  }

  lemma {:induction false} LocalPartOfAddress(name: string, domain: string)
    requires '@' !in name
    ensures LocalPart(name + "@" + domain) == name
  {
    if name != [] {
      assert (name + "@" + domain)[1..] == name[1..] + "@" + domain;
      LocalPartOfAddress(name[1..], domain);
    }
  }

  function LowerChar(c: char): char {
    if 'A' <= c <= 'Z' then (c as int + 32) as char else c
  }

  /** `str.lower()` on the ASCII letters. */
  function Lower(s: string): (r: string)
    ensures |r| == |s|
    ensures forall i :: 0 <= i < |s| ==> r[i] == LowerChar(s[i])
  {
    seq(|s|, i requires 0 <= i < |s| => LowerChar(s[i]))
  }

  /**
   * `User(id, email, display_name, role, username, ...)`: the username is the first truthy of
   * `username`, `display_name` and the email's local part (which needs `email` to be a string),
   * and the display name falls back to that username.
   */
  function NewUser(id: Value, email: Value, displayName: Value, role: Value, username: Value,
                   isAdmin: Value, setupComplete: Value, coinBalance: Value,
                   language: Value, darkMode: Value): (r: Result<User, UserError>)
    ensures r.Failure? <==> !Truthy(username) && !Truthy(displayName) && !email.Str?
    ensures r.Failure? ==> r.error == NotText("email")
    ensures r.Success? ==>
      r.value.id == id && r.value.email == email && r.value.role == role &&
      r.value.isAdmin == isAdmin && r.value.setupComplete == setupComplete &&
      r.value.coinBalance == coinBalance && r.value.language == language && r.value.darkMode == darkMode
  {
    var name :=
      if Truthy(username) then Success(username)
      else if Truthy(displayName) then Success(displayName)
      else if email.Str? then Success(Str(LocalPart(email.s)))
      else Failure(NotText("email"));
    match name
    case Failure(e) => Failure(e)
    case Success(u) =>
      Success(User(id, email, u, role, Or(displayName, u), isAdmin, setupComplete, coinBalance, language, darkMode))
  }

  /** The two names of a user are taken from the same chain: each is truthy iff the other is. */
  lemma NamesTruthyTogether(id: Value, email: Value, displayName: Value, role: Value, username: Value,
                            isAdmin: Value, setupComplete: Value, coinBalance: Value,
                            language: Value, darkMode: Value)
    requires NewUser(id, email, displayName, role, username, isAdmin, setupComplete, coinBalance, language, darkMode).Success?
    ensures var u := NewUser(id, email, displayName, role, username, isAdmin, setupComplete, coinBalance, language, darkMode).value;
            (Truthy(u.username) <==> Truthy(u.displayName)) &&
            (Truthy(username) ==> u.username == username) &&
            (Truthy(displayName) ==> u.displayName == displayName) &&
            (!Truthy(username) && Truthy(displayName) ==> u.username == displayName) &&
            (!Truthy(username) && !Truthy(displayName) ==> u.username == u.displayName == Str(LocalPart(email.s)))
  {
    var u := NewUser(id, email, displayName, role, username, isAdmin, setupComplete, coinBalance, language, darkMode).value;
    if Truthy(username) {
      assert u.username == username;
    } else if Truthy(displayName) {
      assert u.username == displayName && u.displayName == displayName;
    } else {
      assert u.username == Str(LocalPart(email.s)) && u.displayName == u.username;
    }
  }

  /**
   * The names of a user registered with neither a username nor a display name: both are the
   * local part of the address.
   */
  lemma NamesFromAddress(id: Value, name: string, domain: string, role: Value)
    requires '@' !in name
    ensures var r := NewUser(id, Str(name + "@" + domain), Null, role, Null, Bool(false), Bool(false), Int(0), Str("en"), Bool(false));
            r.Success? && r.value.username == Str(name) && r.value.displayName == Str(name)
  {
    LocalPartOfAddress(name, domain);
  }

  /** What `create_user` leaves in the caller's dict, and the document it built or the exception it raised. */
  datatype Prepared = Prepared(userData: Document, doc: Result<Document, UserError>)

  /**
   * The user document of `create_user`: `_id` is the lowercased `username`, or the email's local
   * part when there is none (the address is read first either way); a `password` is hashed
   * into `password_hash` of the caller's dict; every other field has its default.
   */
  function UserDoc(userData: Document, hash: Value -> Value, now: int): (p: Prepared)
    ensures "email" !in userData ==> p == Prepared(userData, Failure(KeyMissing("email")))
    ensures "email" in userData && !userData["email"].Str? ==> p == Prepared(userData, Failure(NotText("email")))
    ensures p.userData ==
      if "email" in userData && userData["email"].Str? && ("username" in userData ==> userData["username"].Str?) &&
         "password" in userData
      then userData["password_hash" := hash(userData["password"])]
      else userData
    ensures p.doc.Success? <==>
      "email" in userData && userData["email"].Str? &&
      ("username" in userData ==> userData["username"].Str?) &&
      ("password" in userData || "password_hash" in userData)
    ensures p.doc.Success? ==> HasUserFields(p.doc.value)
  {
    if "email" !in userData then Prepared(userData, Failure(KeyMissing("email")))
    else if !userData["email"].Str? then Prepared(userData, Failure(NotText("email")))
    else
      var email := userData["email"].s;
      var name := Get(userData, "username", Str(LocalPart(email)));
      if !name.Str? then Prepared(userData, Failure(NotText("username")))
      else
        var userId := Lower(name.s);
        var data := if "password" in userData then userData["password_hash" := hash(userData["password"])] else userData;
        if "password_hash" !in data then Prepared(data, Failure(KeyMissing("password_hash")))
        else Prepared(data, Success(BuildUserDoc(data, userId, Lower(email), now)))
  }

  /**
   * The fields of a user document `create_user` built: `_id` and `email` lowercased, the hash as
   * `password`, and every other field taken from the dict or defaulted.
   */
  lemma UserDocContents(userData: Document, hash: Value -> Value, now: int)
    requires UserDoc(userData, hash, now).doc.Success?
    ensures var p := UserDoc(userData, hash, now);
      var d := p.doc.value;
      var email := userData["email"].s;
      d.Keys == UserFields &&
      var name := if "username" in userData then userData["username"].s else LocalPart(email);
      d["_id"] == Str(Lower(name)) && d["email"] == Str(Lower(email)) &&
      d["password"] == p.userData["password_hash"] &&
      d["role"] == Get(userData, "role", Str("personal")) &&
      d["display_name"] == Get(userData, "display_name", Str(Lower(name))) &&
      d["coin_balance"] == Get(userData, "coin_balance", Int(10)) &&
      d["language"] == Get(userData, "lang", Str("en")) &&
      d["created_at"] == Get(userData, "created_at", Date(now)) &&
      d["is_admin"] == Get(userData, "is_admin", Bool(false)) &&
      d["setup_complete"] == Get(userData, "setup_complete", Bool(false)) &&
      d["dark_mode"] == Get(userData, "dark_mode", Bool(false)) &&
      d["business_details"] == Get(userData, "business_details", Null) &&
      d["personal_details"] == Get(userData, "personal_details", Null) &&
      d["agent_details"] == Get(userData, "agent_details", Null)
  {
    var email := userData["email"].s;
    var name := Get(userData, "username", Str(LocalPart(email)));
    var h := if "password" in userData then hash(userData["password"]) else Null;
    var data := if "password" in userData then userData["password_hash" := h] else userData;
    var d := BuildUserDoc(data, Lower(name.s), Lower(email), now);
    assert UserDoc(userData, hash, now).doc == Success(d);
    GetsKept(userData, data, h);
  }

  /** Setting `password_hash` leaves every other field as it was. */
  lemma GetsKept(userData: Document, data: Document, h: Value)
    requires data == userData || data == userData["password_hash" := h]
    ensures forall f, v :: f != "password_hash" ==> Get(data, f, v) == Get(userData, f, v)
  {
  }

  /** The fields of a user document. */
  const UserFields: set<string> := {
    "_id", "email", "password", "role", "display_name", "is_admin", "setup_complete", "coin_balance",
    "language", "dark_mode", "created_at", "business_details", "personal_details", "agent_details"}

  /** Every field of a user document is present. */
  predicate HasUserFields(d: Document) {
    "_id" in d && "email" in d && "password" in d && "role" in d && "display_name" in d &&
    "is_admin" in d && "setup_complete" in d && "coin_balance" in d && "language" in d &&
    "dark_mode" in d && "created_at" in d && "business_details" in d && "personal_details" in d &&
    "agent_details" in d
  }

  /** The `user_doc` literal of `create_user`, from the dict after hashing. */
  function BuildUserDoc(data: Document, userId: string, email: string, now: int): (d: Document)
    requires "password_hash" in data
    ensures d.Keys == UserFields && HasUserFields(d)
    ensures d["_id"] == Str(userId) && d["email"] == Str(email) && d["password"] == data["password_hash"]
    ensures d["role"] == Get(data, "role", Str("personal"))
    ensures d["display_name"] == Get(data, "display_name", Str(userId))
    ensures d["is_admin"] == Get(data, "is_admin", Bool(false))
    ensures d["setup_complete"] == Get(data, "setup_complete", Bool(false))
    ensures d["coin_balance"] == Get(data, "coin_balance", Int(10))
    ensures d["language"] == Get(data, "lang", Str("en"))
    ensures d["dark_mode"] == Get(data, "dark_mode", Bool(false))
    ensures d["created_at"] == Get(data, "created_at", Date(now))
    ensures d["business_details"] == Get(data, "business_details", Null)
    ensures d["personal_details"] == Get(data, "personal_details", Null)
    ensures d["agent_details"] == Get(data, "agent_details", Null)
  {
    map f | f in UserFields :: UserField(data, userId, email, now, f)
  }

  /** One entry of the `user_doc` literal. */
  function UserField(data: Document, userId: string, email: string, now: int, f: string): Value
    requires "password_hash" in data
  {
    if f == "_id" then Str(userId)
    else if f == "email" then Str(email)
    else if f == "password" then data["password_hash"]
    else if f == "display_name" then Get(data, f, Str(userId))
    else if f == "role" then Get(data, f, Str("personal"))
    else if f == "coin_balance" then Get(data, f, Int(10))
    else if f == "language" then Get(data, "lang", Str("en"))
    else if f == "created_at" then Get(data, f, Date(now))
    else if f == "is_admin" || f == "setup_complete" || f == "dark_mode" then Get(data, f, Bool(false))
    else Get(data, f, Null)
  }

  /** The unique indexes on `users` (`_id` and `email`) refuse a document clashing with a stored one. */
  predicate Clashes(users: seq<Document>, id: Value, email: Value) {
    exists i :: 0 <= i < |users| && (Matches(users[i], map["_id" := id]) || Matches(users[i], map["email" := email]))
  }

  /** The `User` a stored user document describes, as `create_user`, `get_user` and `get_user_by_email` build it. */
  function UserFromDoc(doc: Document): (r: Result<User, UserError>)
    ensures "_id" !in doc ==> r == Failure(KeyMissing("_id"))
    ensures "_id" in doc && "email" !in doc ==> r == Failure(KeyMissing("email"))
    ensures r.Success? ==>
      r.value.id == doc["_id"] && r.value.email == doc["email"] &&
      r.value.role == Get(doc, "role", Str("personal")) &&
      r.value.coinBalance == Get(doc, "coin_balance", Int(0)) &&
      r.value.language == Get(doc, "language", Str("en"))
  {
    if "_id" !in doc then Failure(KeyMissing("_id"))
    else if "email" !in doc then Failure(KeyMissing("email"))
    else NewUser(doc["_id"], doc["email"], Get(doc, "display_name", Null), Get(doc, "role", Str("personal")),
                 doc["_id"], Get(doc, "is_admin", Bool(false)), Get(doc, "setup_complete", Bool(false)),
                 Get(doc, "coin_balance", Int(0)), Get(doc, "language", Str("en")), Get(doc, "dark_mode", Bool(false)))
  }

  /** The end of `create_user`: the caller's dict, the store, and the user or the exception. */
  datatype Created = Created(userData: Document, db: Db, user: Result<User, UserError>)

  /** `create_user(db, user_data)`; `hash` is `generate_password_hash` and `now` is `datetime.utcnow()`. */
  function CreateUser(db: Db, userData: Document, hash: Value -> Value, now: int): (c: Created)
    ensures var p := UserDoc(userData, hash, now);
            c.userData == p.userData && (p.doc.Failure? ==> c.db == db && c.user == Failure(p.doc.error))
  {
    var p := UserDoc(userData, hash, now);
    match p.doc
    case Failure(e) => Created(p.userData, db, Failure(e))
    case Success(d) =>
      if Clashes(Docs(db, "users"), d["_id"], d["email"]) then Created(p.userData, db, Failure(UserExists))
      else
        var db' := InsertDocs(db, "users", [d]);
        var user := NewUser(d["_id"], d["email"], d["display_name"], d["role"], d["_id"], d["is_admin"],
                            d["setup_complete"], d["coin_balance"], d["language"], d["dark_mode"]);
        Created(p.userData, db', user)
  }

  /**
   * A user document that was built is inserted unless it clashes with a stored user on `_id` or
   * `email`, in which case `ValueError` is raised and nothing is stored.
   */
  lemma CreateUserInserts(db: Db, userData: Document, hash: Value -> Value, now: int)
    requires UserDoc(userData, hash, now).doc.Success?
    ensures var d := UserDoc(userData, hash, now).doc.value;
            var c := CreateUser(db, userData, hash, now);
            HasUserFields(d) &&
            (c.user == Failure(UserExists) <==> Clashes(Docs(db, "users"), d["_id"], d["email"])) &&
            (c.user.Failure? ==> c.db == db) &&
            (c.user.Success? ==> Docs(c.db, "users") == Docs(db, "users") + [d] &&
                                 c.user.value.id == d["_id"] && c.user.value.email == d["email"] &&
                                 c.user.value.role == d["role"] && c.user.value.coinBalance == d["coin_balance"])
  {
    var d := UserDoc(userData, hash, now).doc.value;
    assert d["email"].Str? by {
      UserDocContents(userData, hash, now);
    }
    if !Clashes(Docs(db, "users"), d["_id"], d["email"]) {
      InsertIdentified(db, "users", d);
    }
  }

  /** Inserting a document that already has an `_id` appends it unchanged. */
  lemma InsertIdentified(db: Db, name: string, d: Document)
    requires "_id" in d
    ensures Docs(InsertDocs(db, name, [d]), name) == Docs(db, name) + [d]
  {
    assert Stored([d], db.nextOid) == [d];
  }

  /** A user read from a found document, as the lookups return it. */
  function Found(u: Result<User, UserError>): Result<Option<User>, UserError> {
    match u
    case Failure(e) => Failure(e)
    case Success(v) => Success(Some(v))
  }

  /**
   * `find_one(filter)` followed by `if user_doc:` and the `User(...)` built from it: no value when
   * nothing matches or the first match is empty, otherwise that document read as a user, where a
   * missing `_id` or `email` is the re-raised `KeyError`.
   */
  function LookUp(docs: seq<Document>, filter: Document): (r: Result<Option<User>, UserError>)
    ensures (forall j :: 0 <= j < |docs| ==> !Matches(docs[j], filter)) ==> r == Success(None)
    ensures forall k :: 0 <= k < |docs| && Matches(docs[k], filter) &&
                        (forall j :: 0 <= j < k ==> !Matches(docs[j], filter)) ==>
              r == if docs[k] == map[] then Success(None) else Found(UserFromDoc(docs[k]))
  {
    var m := FirstMatch(docs, filter);
    match m
    case None => Success(None)
    case Some(i) =>
      assert forall k :: (0 <= k < |docs| && Matches(docs[k], filter) &&
                          (forall j :: 0 <= j < k ==> !Matches(docs[j], filter))) ==> k == i;
      var d := docs[i];
      if d == map[] then Success(None) else Found(UserFromDoc(d))
  }

  /** `get_user(db, user_id)`: the first user whose `_id` is `userId`. */
  function GetUser(db: Db, userId: Value): (r: Result<Option<User>, UserError>)
    ensures var docs, f := Docs(db, "users"), map["_id" := userId];
      (forall j :: 0 <= j < |docs| ==> !Matches(docs[j], f)) ==> r == Success(None)
    ensures var docs, f := Docs(db, "users"), map["_id" := userId];
      forall k :: 0 <= k < |docs| && Matches(docs[k], f) && (forall j :: 0 <= j < k ==> !Matches(docs[j], f)) ==>
        r == if docs[k] == map[] then Success(None) else Found(UserFromDoc(docs[k]))
  {
    LookUp(Docs(db, "users"), map["_id" := userId])
  }

  /** `get_user_by_email(db, email)`: the first user whose address is `email` lowercased. */
  function GetUserByEmail(db: Db, email: string): (r: Result<Option<User>, UserError>)
    ensures var docs, f := Docs(db, "users"), map["email" := Str(Lower(email))];
      (forall j :: 0 <= j < |docs| ==> !Matches(docs[j], f)) ==> r == Success(None)
    ensures var docs, f := Docs(db, "users"), map["email" := Str(Lower(email))];
      forall k :: 0 <= k < |docs| && Matches(docs[k], f) && (forall j :: 0 <= j < k ==> !Matches(docs[j], f)) ==>
        r == if docs[k] == map[] then Success(None) else Found(UserFromDoc(docs[k]))
  {
    LookUp(Docs(db, "users"), map["email" := Str(Lower(email))])
  }

  /** The `User` that `create_user` builds from a complete user document. */
  function StoredUser(d: Document): (r: Result<User, UserError>)
    requires HasUserFields(d)
    ensures r == UserFromDoc(d)
  {
    NewUser(d["_id"], d["email"], d["display_name"], d["role"], d["_id"], d["is_admin"],
            d["setup_complete"], d["coin_balance"], d["language"], d["dark_mode"])
  }

  /** A user that was created: its document, which holds every field and clashed with no stored user. */
  lemma CreatedDoc(db: Db, userData: Document, hash: Value -> Value, now: int)
    requires CreateUser(db, userData, hash, now).user.Success?
    ensures UserDoc(userData, hash, now).doc.Success?
    ensures var d := UserDoc(userData, hash, now).doc.value;
            var c := CreateUser(db, userData, hash, now);
            HasUserFields(d) && !Clashes(Docs(db, "users"), d["_id"], d["email"]) &&
            Docs(c.db, "users") == Docs(db, "users") + [d] && c.user == StoredUser(d)
  {
    CreateUserInserts(db, userData, hash, now);
  }

  /** After appending a user document that clashed with no stored user, `get_user` finds it by `_id`. */
  lemma GetUserAfterAppend(db: Db, db': Db, d: Document)
    requires HasUserFields(d) && !Clashes(Docs(db, "users"), d["_id"], d["email"])
    requires Docs(db', "users") == Docs(db, "users") + [d]
    requires StoredUser(d).Success?
    ensures GetUser(db', d["_id"]) == Success(Some(StoredUser(d).value))
  {
    var users := Docs(db, "users");
    var filter := map["_id" := d["_id"]];
    forall j | 0 <= j < |users| ensures !Matches(users[j], filter) {
      assert !Matches(users[j], map["_id" := d["_id"]]);
    }
    FindOneAppended(users, d, filter);
  }

  /** After appending a user document that clashed with no stored user, `get_user_by_email` finds it by address. */
  lemma GetUserByEmailAfterAppend(db: Db, db': Db, d: Document, email: string)
    requires HasUserFields(d) && !Clashes(Docs(db, "users"), d["_id"], d["email"])
    requires Docs(db', "users") == Docs(db, "users") + [d]
    requires StoredUser(d).Success? && d["email"] == Str(Lower(email))
    ensures GetUserByEmail(db', email) == Success(Some(StoredUser(d).value))
  {
    var users := Docs(db, "users");
    var filter := map["email" := d["email"]];
    forall j | 0 <= j < |users| ensures !Matches(users[j], filter) {
      assert !Matches(users[j], map["email" := d["email"]]);
    }
    FindOneAppended(users, d, filter);
  }

  /** A user just created is what `get_user` returns for its id. */
  lemma CreatedUserFound(db: Db, userData: Document, hash: Value -> Value, now: int)
    requires CreateUser(db, userData, hash, now).user.Success?
    ensures var c := CreateUser(db, userData, hash, now);
            GetUser(c.db, c.user.value.id) == Success(Some(c.user.value))
  {
    CreatedDoc(db, userData, hash, now);
    var d := UserDoc(userData, hash, now).doc.value;
    GetUserAfterAppend(db, CreateUser(db, userData, hash, now).db, d);
  }

  /** A user just created is what `get_user_by_email` returns for any spelling of its address that lowercases alike. */
  lemma CreatedUserFoundByEmail(db: Db, userData: Document, hash: Value -> Value, now: int, email: string)
    requires CreateUser(db, userData, hash, now).user.Success?
    requires Str(Lower(email)) == CreateUser(db, userData, hash, now).user.value.email
    ensures var c := CreateUser(db, userData, hash, now);
            GetUserByEmail(c.db, email) == Success(Some(c.user.value))
  {
    CreatedDoc(db, userData, hash, now);
    var d := UserDoc(userData, hash, now).doc.value;
    GetUserByEmailAfterAppend(db, CreateUser(db, userData, hash, now).db, d, email);
  }

  /** The address of a user document is the registration's address, lowercased. */
  lemma UserDocEmail(userData: Document, hash: Value -> Value, now: int)
    requires UserDoc(userData, hash, now).doc.Success?
    ensures "email" in userData && userData["email"].Str?
    ensures UserDoc(userData, hash, now).doc.value["email"] == Str(Lower(userData["email"].s))
  {
  }

  /** A document whose address is that of the last stored user clashes with it. */
  lemma ClashesWithLast(users: seq<Document>, id: Value, email: Value)
    requires users != [] && "email" in users[|users| - 1] && users[|users| - 1]["email"] == email
    ensures Clashes(users, id, email)
  {
    assert Matches(users[|users| - 1], map["email" := email]);
  }

  /** Creating a second user with an address that lowercases to a stored one raises `ValueError` and stores nothing. */
  lemma SecondRegistrationRefused(db: Db, first: Document, second: Document, hash: Value -> Value, now: int, later: int)
    requires CreateUser(db, first, hash, now).user.Success?
    requires UserDoc(second, hash, later).doc.Success?
    requires Lower(second["email"].s) == Lower(first["email"].s)
    ensures var c := CreateUser(db, first, hash, now);
            var c2 := CreateUser(c.db, second, hash, later);
            c2.user == Failure(UserExists) && c2.db == c.db
  {
    var c := CreateUser(db, first, hash, now);
    CreatedDoc(db, first, hash, now);
    UserDocEmail(first, hash, now);
    UserDocEmail(second, hash, later);
    var d := UserDoc(first, hash, now).doc.value;
    var d2 := UserDoc(second, hash, later).doc.value;
    ClashesWithLast(Docs(c.db, "users"), d2["_id"], d2["email"]);
    CreateUserInserts(c.db, second, hash, later);
  }

  /** A registration with only an address and a password gets every default of `create_user`. */
  lemma RegistrationDefaults(name: string, domain: string, password: Value, hash: Value -> Value, now: int)
    requires '@' !in name
    ensures var data := map["email" := Str(name + "@" + domain), "password" := password];
            var p := UserDoc(data, hash, now);
            p.doc.Success? && p.userData == data["password_hash" := hash(password)] &&
            p.doc.value["_id"] == Str(Lower(name)) && p.doc.value["display_name"] == Str(Lower(name)) &&
            p.doc.value["email"] == Str(Lower(name + "@" + domain)) && p.doc.value["password"] == hash(password) &&
            p.doc.value["role"] == Str("personal") && p.doc.value["coin_balance"] == Int(10) &&
            p.doc.value["language"] == Str("en") && p.doc.value["created_at"] == Date(now)
  {
    LocalPartOfAddress(name, domain);
    var data := map["email" := Str(name + "@" + domain), "password" := password];
    assert "username" !in data && "role" !in data && "display_name" !in data && "coin_balance" !in data;
    assert "lang" !in data && "created_at" !in data;
    assert UserDoc(data, hash, now).doc.Success?;
    UserDocContents(data, hash, now);
  }

  /** A stored user document without `coin_balance` reads back with 0 coins, not the 10 `create_user` writes. */
  lemma StoredBalanceDefaultsToZero(doc: Document)
    requires "_id" in doc && "email" in doc && Truthy(doc["_id"]) && "coin_balance" !in doc
    ensures UserFromDoc(doc).Success? && UserFromDoc(doc).value.coinBalance == Int(0)
  {
  }
}
