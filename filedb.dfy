/**
 * The JSON file store of backend/utils/fileDb.js: reading the data file into
 * a database with `users` and `students` arrays, the first-match lookups, and
 * the merge-or-append upserts keyed by email and by user id.
 */
module FileDb {
  import opened Common

  /** A JSON value. */
  datatype Json = JNull | JBool(b: bool) | JNum(n: int) | JStr(s: string) | JArr(items: seq<Json>) | JObj(fields: map<string, Json>)

  /** A stored user or student: a JSON object. */
  type Record = map<string, Json>

  /** `r[k]`: the field, or None for `undefined`. */
  function Field(r: Record, k: string): (v: Option<Json>)
    ensures v.Some? <==> k in r
  {
    if k in r then Some(r[k]) else None
  }

  /** The contents of the data file: missing, empty, not JSON, or a parsed JSON value. */
  datatype FileText = Missing | Empty | Unparsable | Parsed(value: Json)

  /**
   * The database held by the file: the `users` and `students` arrays and
   * every other top-level field, kept so that it is written back.
   */
  datatype Db = Db(users: seq<Record>, students: seq<Record>, other: map<string, Json>)

  const EmptyDb: Db := Db([], [], map[])

  /** The elements of a JSON array read as records; an element that is not an object has no fields. */
  function Records(items: seq<Json>): (r: seq<Record>)
    ensures |r| == |items|
    ensures forall i :: 0 <= i < |items| ==> r[i] == (if items[i].JObj? then items[i].fields else map[])
  {
    if items == [] then [] else [if items[0].JObj? then items[0].fields else map[]] + Records(items[1..])
  }

  /** `parsed.users` if it is an array, else `[]` (likewise for `students`). */
  function ArrayField(m: map<string, Json>, k: string): seq<Record> {
    if k in m && m[k].JArr? then Records(m[k].items) else []
  }

  function ObjectToDb(m: map<string, Json>): (db: Db)
    ensures "users" !in db.other && "students" !in db.other
  {
    Db(ArrayField(m, "users"), ArrayField(m, "students"), m - {"users", "students"})
  }

  /**
   * `readJson` as written: a missing file is first created holding the empty
   * database; an empty file reads as `{}`; a parse error, and a `null` whose
   * property read throws, give the empty database; an object keeps its
   * arrays. A number, string or boolean is returned as it is, and is no
   * database at all (None): assigning `users` to a primitive is silently
   * ignored.
   */
  function LoadedAsWritten(f: FileText): (r: Option<Db>)
    ensures r.None? <==> f.Parsed? && (f.value.JBool? || f.value.JNum? || f.value.JStr?)
  {
    match f
    case Missing => Some(EmptyDb)
    case Empty => Some(EmptyDb)
    case Unparsable => Some(EmptyDb)
    case Parsed(JObj(m)) => Some(ObjectToDb(m))
    case Parsed(JNull) => Some(EmptyDb)
    case Parsed(JArr(_)) => Some(EmptyDb)
    case Parsed(_) => None
  }

  /** A data file holding the number 5 makes `readJson` return no database, so `db.users` throws in every caller. */
  lemma PrimitiveFileIsNoDatabase()
    ensures LoadedAsWritten(Parsed(JNum(5))).None?
    ensures Loaded(Parsed(JNum(5))) == EmptyDb
  {
  }

  /**
   * `readJson` as intended: always a database whose `users` and `students`
   * are arrays; any value that is not an object reads as the empty database.
   */
  function Loaded(f: FileText): (db: Db)
    ensures "users" !in db.other && "students" !in db.other
    ensures LoadedAsWritten(f).Some? ==> LoadedAsWritten(f) == Some(db)
    ensures !(f.Parsed? && f.value.JObj?) ==> db == EmptyDb
  {
    if f.Parsed? && f.value.JObj? then ObjectToDb(f.value.fields) else EmptyDb
  }

  /** The JSON written back by `writeJson`. */
  function ToJson(db: Db): Json {
    JObj(db.other["users" := JArr(Objects(db.users))]["students" := JArr(Objects(db.students))])
  }

  function Objects(rs: seq<Record>): (r: seq<Json>)
    ensures |r| == |rs|
    ensures forall i :: 0 <= i < |rs| ==> r[i] == JObj(rs[i])
  {
    if rs == [] then [] else [JObj(rs[0])] + Objects(rs[1..])
  }

  /** Reading back what was written gives the same database. */
  lemma WriteThenRead(db: Db)
    requires "users" !in db.other && "students" !in db.other
    ensures Loaded(Parsed(ToJson(db))) == db
  {
    var m := ToJson(db).fields;
    assert Records(Objects(db.users)) == db.users;
    assert Records(Objects(db.students)) == db.students;
    assert m - {"users", "students"} == db.other;
  }

  /** `rs.find(r => r[key] === v) || null`: the first record whose field matches, an absent field matching absent; no earlier record matches. */
  function FindBy(rs: seq<Record>, key: string, v: Option<Json>): (r: Option<Record>)
    ensures r.Some? ==> exists i :: 0 <= i < |rs| && rs[i] == r.value && Field(rs[i], key) == v
                                   && forall j :: 0 <= j < i ==> Field(rs[j], key) != v
    ensures r.None? <==> forall i :: 0 <= i < |rs| ==> Field(rs[i], key) != v
  {
    match FindIndex(rs, KeyIs(key, v))
    case None => None
    case Some(i) => Some(rs[i])
  }

  function KeyIs(key: string, v: Option<Json>): Record -> bool {
    (r: Record) => Field(r, key) == v
  }

  /**
   * The upsert of `upsertUser` (by `email`) and `upsertStudent` (by `user`):
   * merge into the first record with the same key, the new fields winning,
   * or append.
   */
  function Upsert(rs: seq<Record>, key: string, rec: Record): (r: seq<Record>)
    ensures |rs| <= |r| <= |rs| + 1
    ensures |r| == |rs| + 1 ==> r == rs + [rec] && forall i :: 0 <= i < |rs| ==> Field(rs[i], key) != Field(rec, key)
    ensures |r| == |rs| ==> exists i :: 0 <= i < |rs| && Field(rs[i], key) == Field(rec, key)
                                        && r == rs[i := rs[i] + rec]
  {
    match FindIndex(rs, KeyIs(key, Field(rec, key)))
    case Some(i) => rs[i := rs[i] + rec]
    case None => rs + [rec]
  }

  /** What the record found after an upsert is: the merge with the old record, or the new record itself. */
  function Merged(rs: seq<Record>, key: string, rec: Record): Record {
    match FindIndex(rs, KeyIs(key, Field(rec, key)))
    case Some(i) => rs[i] + rec
    case None => rec
  }

  /**
   * An upsert keeps the length when the key is present and adds exactly one
   * record otherwise, and changes at most one position.
   */
  lemma UpsertShape(rs: seq<Record>, key: string, rec: Record)
    ensures var r := Upsert(rs, key, rec);
      && (FindBy(rs, key, Field(rec, key)).Some? ==> |r| == |rs|)
      && (FindBy(rs, key, Field(rec, key)).None? ==> |r| == |rs| + 1 && r[|rs|] == rec)
      && |r| >= |rs|
      && forall i :: 0 <= i < |rs| && r[i] != rs[i] ==> forall j :: 0 <= j < |rs| && j != i ==> r[j] == rs[j]
  {
  }

  /** The new fields win: every field of the upserted record reads back as given. */
  lemma UpsertNewFieldsWin(rs: seq<Record>, key: string, rec: Record)
    ensures forall k :: k in rec ==> Merged(rs, key, rec)[k] == rec[k]
    ensures forall k :: k !in rec && k in Merged(rs, key, rec) ==>
      exists i :: 0 <= i < |rs| && k in rs[i] && Merged(rs, key, rec)[k] == rs[i][k]
  {
  }

  /** After an upsert, looking the key up finds the merged record. */
  lemma UpsertThenFind(rs: seq<Record>, key: string, rec: Record)
    ensures FindBy(Upsert(rs, key, rec), key, Field(rec, key)) == Some(Merged(rs, key, rec))
  {
    var v := Field(rec, key);
    var r := Upsert(rs, key, rec);
    match FindIndex(rs, KeyIs(key, v))
    case Some(i) =>
      assert Field(rs[i] + rec, key) == v;
      assert KeyIs(key, v)(r[i]);
      assert forall j :: 0 <= j < i ==> r[j] == rs[j];
      var found := FindIndex(r, KeyIs(key, v));
      assert found == Some(i);
    case None =>
      assert KeyIs(key, v)(r[|rs|]);
      assert forall j :: 0 <= j < |rs| ==> r[j] == rs[j];
      var found := FindIndex(r, KeyIs(key, v));
      assert found == Some(|rs|);
  }

  /** The data file, read and rewritten whole by every operation. */
  class DataFile {
    var file: FileText

    constructor (initial: FileText)
      ensures file == initial
    {
      file := initial;
    }

    /** `ensureDataFile` then `readJson`: a missing file is created holding the empty database. */
    method ReadJson() returns (db: Db)
      modifies this
      ensures db == Loaded(old(file))
      ensures file == if old(file).Missing? then Parsed(ToJson(EmptyDb)) else old(file)
    {
      if file.Missing? {
        file := Parsed(ToJson(EmptyDb));
      }
      db := Loaded(file);
    }

    method WriteJson(db: Db)
      modifies this
      ensures file == Parsed(ToJson(db))
    {
      file := Parsed(ToJson(db));
    }

    /** `findUserByEmail`: the first stored user with that email, or null. */
    function FindUserByEmail(email: Option<Json>): (r: Option<Record>)
      reads this
      ensures r.Some? ==> r.value in Loaded(file).users && Field(r.value, "email") == email
      ensures r.None? <==> forall i :: 0 <= i < |Loaded(file).users| ==> Field(Loaded(file).users[i], "email") != email
    {
      FindBy(Loaded(file).users, "email", email)
    }

    /** `findUserByUsername`: the first stored user with that username, or null. */
    function FindUserByUsername(username: Option<Json>): (r: Option<Record>)
      reads this
      ensures r.Some? ==> r.value in Loaded(file).users && Field(r.value, "username") == username
      ensures r.None? <==> forall i :: 0 <= i < |Loaded(file).users| ==> Field(Loaded(file).users[i], "username") != username
    {
      FindBy(Loaded(file).users, "username", username)
    }

    /** `findStudentByUser`: the first stored student of that user, or null. */
    function FindStudentByUser(userId: Option<Json>): (r: Option<Record>)
      reads this
      ensures r.Some? ==> r.value in Loaded(file).students && Field(r.value, "user") == userId
      ensures r.None? <==> forall i :: 0 <= i < |Loaded(file).students| ==> Field(Loaded(file).students[i], "user") != userId
    {
      FindBy(Loaded(file).students, "user", userId)
    }

    /** `upsertUser`: merge or append by email, write the file, return the record given. */
    method UpsertUser(user: Record) returns (r: Record)
      modifies this
      ensures r == user
      ensures var db := Loaded(old(file));
        file == Parsed(ToJson(db.(users := Upsert(db.users, "email", user))))
      ensures FindUserByEmail(Field(user, "email")) == Some(Merged(Loaded(old(file)).users, "email", user))
    {
      var db := ReadJson();
      var db' := db.(users := Upsert(db.users, "email", user));
      WriteJson(db');
      WriteThenRead(db');
      UpsertThenFind(db.users, "email", user);
      r := user;
    }

    /** `upsertStudent`: merge or append by user id, write the file, return the record given. */
    method UpsertStudent(student: Record) returns (r: Record)
      modifies this
      ensures r == student
      ensures var db := Loaded(old(file));
        file == Parsed(ToJson(db.(students := Upsert(db.students, "user", student))))
      ensures FindStudentByUser(Field(student, "user")) == Some(Merged(Loaded(old(file)).students, "user", student))
    {
      var db := ReadJson();
      var db' := db.(students := Upsert(db.students, "user", student));
      WriteJson(db');
      WriteThenRead(db');
      UpsertThenFind(db.students, "user", student);
      r := student;
    }
  }
}
