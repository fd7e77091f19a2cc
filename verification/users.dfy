/** `UsuariosController`: the user listing, which never discloses a password. */
module Users {
  import opened Store

  /** `GetUsuarios`: every stored user in storage order, each with the password blanked. */
  function ListUsers(s: Store): (r: Reply<seq<User>>)
    ensures r.store == s && r.result.Ok?
    ensures |r.result.value| == |s.users|
    ensures forall k :: 0 <= k < |s.users| ==>
      var v := r.result.value[k];
      && v.password == ""
      && v.id == s.users[k].id
      && v.name == s.users[k].name
      && v.role == s.users[k].role
  {
    Reply(s, Ok(seq(|s.users|, k requires 0 <= k < |s.users| => s.users[k].(password := ""))))
  }

  /**
   The listing does not depend on the stored passwords: two user tables that
   differ only in passwords list identically.
   */
  lemma ListingHidesPasswords(s: Store, t: Store)
    requires |s.users| == |t.users|
    requires forall k :: 0 <= k < |s.users| ==>
      s.users[k].id == t.users[k].id && s.users[k].name == t.users[k].name && s.users[k].role == t.users[k].role
    ensures ListUsers(s).result == ListUsers(t).result
  {
    var vs, ws := ListUsers(s).result.value, ListUsers(t).result.value;
    forall k | 0 <= k < |vs| ensures vs[k] == ws[k] {
      assert vs[k].password == ws[k].password;
    }
    assert vs == ws;
  }
}
