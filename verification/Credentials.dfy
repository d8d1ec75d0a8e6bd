/** The secrets of a credential over any run of `Create` and `Update`. */
module Credentials {
  import opened Common
  import opened Collections
  import opened Bytes
  import opened Cipher

  /** The seven secret fields; the others are stored as submitted and not modelled. */
  datatype Secrets = Secrets(
    password: Text, sshKeyData: Text, sshKeyUnlock: Text, becomePassword: Text,
    vaultPassword: Text, authorizePassword: Text, secret: Text)

  datatype Field = Password | SshKeyData | SshKeyUnlock | BecomePassword | VaultPassword | AuthorizePassword | Secret

  function Get(s: Secrets, f: Field): Text {
    match f
    case Password => s.password
    case SshKeyData => s.sshKeyData
    case SshKeyUnlock => s.sshKeyUnlock
    case BecomePassword => s.becomePassword
    case VaultPassword => s.vaultPassword
    case AuthorizePassword => s.authorizePassword
    case Secret => s.secret
  }

  /** "$encrypted$", what an answer shows in place of a secret. */
  const SENTINEL: Text := [36, 101, 110, 99, 114, 121, 112, 116, 101, 100, 36]

  const HIDDEN := Secrets(SENTINEL, SENTINEL, SENTINEL, SENTINEL, SENTINEL, SENTINEL, SENTINEL)

  /** A request: refused before anything is written (a bad body, an unknown organization, a
      name taken, a failed write) or carried out; the submitted secrets; and what the random
      source delivers for each of them. */
  datatype Edit = Edit(refused: bool, req: Secrets, ivs: Field -> Option<Block>)

  /** Whether an update replaces the stored field. */
  predicate Counts(edit: Edit, f: Field) {
    && !edit.refused
    && Get(edit.req, f) != SENTINEL
    && (f == SshKeyUnlock ==> edit.req.sshKeyData != SENTINEL)
  }

  /** What is stored for a submitted field. */
  function Sealed(e: Block -> Block, edit: Edit, f: Field): Text {
    CipherOf(e, Get(edit.req, f), edit.ivs(f))
  }

  /** A stored field after an update. */
  function Stored(e: Block -> Block, before: Text, edit: Edit, f: Field): Text {
    if Counts(edit, f) then Sealed(e, edit, f) else before
  }

  /** A credential in memory, changed field by field. */
  class Credential {
    var password: Text
    var sshKeyData: Text
    var sshKeyUnlock: Text
    var becomePassword: Text
    var vaultPassword: Text
    var authorizePassword: Text
    var secret: Text

    function Value(): Secrets
      reads this
    {
      Secrets(password, sshKeyData, sshKeyUnlock, becomePassword, vaultPassword, authorizePassword, secret)
    }

    constructor (s: Secrets)
      ensures Value() == s
    {
      password := s.password;
      sshKeyData := s.sshKeyData;
      sshKeyUnlock := s.sshKeyUnlock;
      becomePassword := s.becomePassword;
      vaultPassword := s.vaultPassword;
      authorizePassword := s.authorizePassword;
      secret := s.secret;
    }

    /** `hideEncrypted`: no answer shows a secret. */
    method HideEncrypted()
      modifies this
      ensures Value() == HIDDEN
    {
      password := SENTINEL;
      sshKeyData := SENTINEL;
      sshKeyUnlock := SENTINEL;
      becomePassword := SENTINEL;
      vaultPassword := SENTINEL;
      authorizePassword := SENTINEL;
      secret := SENTINEL;
    }

    /** The enciphering of a new credential. */
    method SealAll(e: Block -> Block, edit: Edit)
      requires Value() == edit.req
      modifies this
      ensures forall f :: Get(Value(), f) == Sealed(e, edit, f)
    {
      hide CipherOf;
      var ivs := edit.ivs;
      password := Cipher.Cipher(e, password, ivs(Password));
      sshKeyData := Cipher.Cipher(e, sshKeyData, ivs(SshKeyData));
      sshKeyUnlock := Cipher.Cipher(e, sshKeyUnlock, ivs(SshKeyUnlock));
      becomePassword := Cipher.Cipher(e, becomePassword, ivs(BecomePassword));
      vaultPassword := Cipher.Cipher(e, vaultPassword, ivs(VaultPassword));
      authorizePassword := Cipher.Cipher(e, authorizePassword, ivs(AuthorizePassword));
      secret := Cipher.Cipher(e, secret, ivs(Secret));
    }

    /** The replacement of the submitted fields that are not the sentinel. */
    method Replace(e: Block -> Block, edit: Edit)
      requires !edit.refused
      modifies this
      ensures forall f :: Get(Value(), f) == Stored(e, Get(old(Value()), f), edit, f)
    {
      hide CipherOf;
      var req, ivs := edit.req, edit.ivs;
      if req.password != SENTINEL {
        password := Cipher.Cipher(e, req.password, ivs(Password));
      }
      if req.sshKeyData != SENTINEL {
        sshKeyData := Cipher.Cipher(e, req.sshKeyData, ivs(SshKeyData));
        if req.sshKeyUnlock != SENTINEL {
          sshKeyUnlock := Cipher.Cipher(e, req.sshKeyUnlock, ivs(SshKeyUnlock));
        }
      }
      ReplaceRest(e, edit);
    }

    method ReplaceRest(e: Block -> Block, edit: Edit)
      requires !edit.refused
      modifies `becomePassword, `vaultPassword, `authorizePassword, `secret
      ensures forall f :: f in {BecomePassword, VaultPassword, AuthorizePassword, Secret} ==>
                Get(Value(), f) == Stored(e, Get(old(Value()), f), edit, f)
    {
      hide CipherOf;
      var req, ivs := edit.req, edit.ivs;
      if req.becomePassword != SENTINEL {
        becomePassword := Cipher.Cipher(e, req.becomePassword, ivs(BecomePassword));
      }
      if req.vaultPassword != SENTINEL {
        vaultPassword := Cipher.Cipher(e, req.vaultPassword, ivs(VaultPassword));
      }
      if req.authorizePassword != SENTINEL {
        authorizePassword := Cipher.Cipher(e, req.authorizePassword, ivs(AuthorizePassword));
      }
      if req.secret != SENTINEL {
        secret := Cipher.Cipher(e, req.secret, ivs(Secret));
      }
    }
  }

  /** The stored collection. */
  class Database {
    var docs: map<Id, Secrets>

    constructor ()
      ensures docs == map[]
    {
      docs := map[];
    }

    /** `Create`: every field is enciphered as submitted, the sentinel included. */
    method Create(e: Block -> Block, id: Id, edit: Edit) returns (answer: Option<Secrets>)
      modifies this
      ensures edit.refused ==> docs == old(docs) && answer == None
      ensures !edit.refused ==>
                && answer == Some(HIDDEN)
                && docs.Keys == old(docs).Keys + {id}
                && (forall other :: other in old(docs) && other != id ==> docs[other] == old(docs)[other])
                && forall f :: Get(docs[id], f) == Sealed(e, edit, f)
    {
      if edit.refused {
        return None;
      }
      var req := new Credential(edit.req);
      req.SealAll(e, edit);
      docs := docs[id := req.Value()];
      req.HideEncrypted();
      answer := Some(req.Value());
    }

    /** `Update` of a stored credential. */
    method Update(e: Block -> Block, id: Id, edit: Edit) returns (answer: Option<Secrets>)
      requires id in docs
      modifies this
      ensures answer == if edit.refused then None else Some(HIDDEN)
      ensures docs.Keys == old(docs).Keys
      ensures forall other :: other in docs && other != id ==> docs[other] == old(docs)[other]
      ensures forall f :: Get(docs[id], f) == Stored(e, Get(old(docs)[id], f), edit, f)
    {
      if edit.refused {
        return None;
      }
      var credential := new Credential(docs[id]);
      credential.Replace(e, edit);
      docs := docs[id := credential.Value()];
      credential.HideEncrypted();
      answer := Some(credential.Value());
    }

    /** The answer to a GET. */
    method Show(id: Id) returns (answer: Secrets)
      requires id in docs
      ensures answer == HIDDEN
    {
      var credential := new Credential(docs[id]);
      credential.HideEncrypted();
      answer := credential.Value();
    }
  }

  // ---- Runs ----

  /** A stored field after a creation and any updates. */
  function After(e: Block -> Block, first: Edit, edits: seq<Edit>, f: Field): Text
    decreases |edits|
  {
    if edits == [] then Sealed(e, first, f)
    else Stored(e, After(e, first, edits[..|edits|-1], f), edits[|edits|-1], f)
  }

  /** What was submitted last, by the creation or by an update that counts for the field, is
      what the stored field deciphers to. An empty submission is stored as empty, and so is
      one for which the random source failed. */
  lemma {:induction false} LastSubmittedIsStored(e: Block -> Block, first: Edit, edits: seq<Edit>, f: Field, k: int)
    requires -1 <= k < |edits|
    requires k >= 0 ==> Counts(edits[k], f)
    requires forall j :: k < j < |edits| ==> !Counts(edits[j], f)
    ensures var last := if k < 0 then first else edits[k];
            if Get(last.req, f) == [] || last.ivs(f) == None
            then After(e, first, edits, f) == []
            else DecipherOf(e, After(e, first, edits, f)) == Bytes(Get(last.req, f))
    decreases |edits|
  {
    var last := if k < 0 then first else edits[k];
    if k < |edits| - 1 {
      LastSubmittedIsStored(e, first, edits[..|edits|-1], f, k);
    } else if Get(last.req, f) != [] && last.ivs(f).Some? {
      DecipherCipher(e, Get(last.req, f), last.ivs(f).value);
    }
  }

  /** What an update makes of a stored secret: nothing, if it is refused, shows the sentinel for
      the field, or, for the passphrase of a key, shows it for the key; otherwise what was
      submitted can be read back, and an empty text, or one without random bytes, is empty. */
  lemma NextStored(e: Block -> Block, first: Edit, edits: seq<Edit>, edit: Edit, f: Field)
    ensures var before, after := After(e, first, edits, f), After(e, first, edits + [edit], f);
            var hidden := [36, 101, 110, 99, 114, 121, 112, 116, 101, 100, 36];
            if edit.refused || Get(edit.req, f) == hidden || (f == SshKeyUnlock && edit.req.sshKeyData == hidden)
            then after == before
            else if Get(edit.req, f) == [] || edit.ivs(f) == None then after == []
            else DecipherOf(e, after) == Bytes(Get(edit.req, f))
  {
    assert (edits + [edit])[..|edits|] == edits;
    if Get(edit.req, f) != [] && edit.ivs(f).Some? {
      DecipherCipher(e, Get(edit.req, f), edit.ivs(f).value);
    }
  }

  /** Whether an update puts back the secrets as an answer shows them. */
  predicate Echo(edit: Edit) {
    edit.req == HIDDEN
  }

  function Meant(): Edit -> bool { (edit: Edit) => !Echo(edit) }

  /** Updates that put back what an answer showed might as well not have happened, whatever
      comes before, between and after them. */
  lemma {:induction false} EchoesChangeNothing(e: Block -> Block, first: Edit, edits: seq<Edit>, f: Field)
    ensures After(e, first, edits, f) == After(e, first, Where(edits, Meant()), f)
    decreases |edits|
  {
    if edits != [] {
      var n := |edits| - 1;
      EchoesChangeNothing(e, first, edits[..n], f);
      WhereLast(edits, n, Meant());
      assert edits[..n + 1] == edits;
      var kept := Where(edits[..n], Meant());
      if Echo(edits[n]) {
        assert Get(HIDDEN, f) == SENTINEL;
        assert Where(edits, Meant()) == kept;
      } else {
        assert Where(edits, Meant()) == kept + [edits[n]];
        assert (kept + [edits[n]])[..|kept|] == kept;
      }
    }
  }
}
