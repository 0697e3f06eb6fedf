/** The file of edge tokens: what `issue`, `revoke` and a verification make of one version of it. */
module TokenFile {
  import opened Wrappers

  const HOST_WORDS: seq<string> := ["claude-connector", "chatgpt", "m365-copilot", "copilot-cloud-agent"]

  /** A secret is named by the run of `issue` that drew it, so no two are equal. */
  type Secret = nat

  /** SHA-256 of a token, taken to be injective. */
  datatype Digest = Sha256(secret: Secret)

  datatype EdgeToken = EdgeToken(
    name: string, sha256: Digest, issuedAt: int, revokedAt: Option<int>, host: Option<string>)

  type Tokens = seq<EdgeToken>

  datatype Error =
    | UnknownHost | BadLabel | Busy | NoStore | AlreadyIssued | NotIssued | AlreadyRevoked | Revoked | WrongEndpoint

  predicate HostAllowed(host: Option<string>) {
    host.Some? ==> host.value in HOST_WORDS
  }

  predicate LabelAllowed(name: string) {
    1 <= |name| <= 128 && forall i | 0 <= i < |name| :: '!' <= name[i] <= '~' && name[i] != '\"' && name[i] != '\\'
  }

  /** The first token of a label. */
  function ByLabel(tokens: Tokens, name: string): (r: int)
    ensures r == -1 || (0 <= r < |tokens| && tokens[r].name == name)
    ensures forall i | 0 <= i < |tokens| && (r == -1 || i < r) :: tokens[i].name != name
  {
    if tokens == [] then -1
    else if tokens[0].name == name then 0
    else
      var later := ByLabel(tokens[1..], name);
      assert forall i | 1 <= i < |tokens| :: tokens[i] == tokens[1..][i - 1];
      if later == -1 then -1 else later + 1
  }

  function ByDigest(tokens: Tokens, digest: Digest): (r: int)
    ensures r == -1 || (0 <= r < |tokens| && tokens[r].sha256 == digest)
    ensures forall i | 0 <= i < |tokens| && (r == -1 || i < r) :: tokens[i].sha256 != digest
  {
    if tokens == [] then -1
    else if tokens[0].sha256 == digest then 0
    else
      var later := ByDigest(tokens[1..], digest);
      assert forall i | 1 <= i < |tokens| :: tokens[i] == tokens[1..][i - 1];
      if later == -1 then -1 else later + 1
  }

  /** The version `issue` writes over the one it read. */
  function Issued(tokens: Tokens, name: string, host: Option<string>, secret: Secret, now: int): Result<Tokens, Error> {
    if ByLabel(tokens, name) != -1 then Err(AlreadyIssued)
    else Ok(tokens + [EdgeToken(name, Sha256(secret), now, None, host)])
  }

  /** The version `revoke` writes over the one it read. */
  function RevokedIn(tokens: Tokens, name: string, now: int): Result<Tokens, Error> {
    var i := ByLabel(tokens, name);
    if i == -1 then Err(NotIssued)
    else if tokens[i].revokedAt.Some? then Err(AlreadyRevoked)
    else Ok(tokens[i := tokens[i].(revokedAt := Some(now))])
  }

  /** Whom a presented token names, by the version read. */
  function Verified(tokens: Tokens, secret: Secret, host: string): Result<string, Error> {
    var i := ByDigest(tokens, Sha256(secret));
    if i == -1 then Err(NotIssued)
    else if tokens[i].revokedAt.Some? then Err(Revoked)
    else if tokens[i].host.Some? && tokens[i].host.value != host then Err(WrongEndpoint)
    else Ok(tokens[i].name)
  }

  predicate LabelsUnique(tokens: Tokens) {
    forall i, j | 0 <= i < j < |tokens| :: tokens[i].name != tokens[j].name
  }

  predicate DigestsUnique(tokens: Tokens) {
    forall i, j | 0 <= i < j < |tokens| :: tokens[i].sha256 != tokens[j].sha256
  }

  /** The same token, perhaps revoked since. */
  predicate SameToken(before: EdgeToken, after: EdgeToken) {
    && before.name == after.name && before.sha256 == after.sha256
    && before.issuedAt == after.issuedAt && before.host == after.host
    && (before.revokedAt.Some? ==> after.revokedAt == before.revokedAt)
  }

  /** A later version of the file: nothing lost, nothing renamed, nothing un-revoked. */
  predicate Extends(before: Tokens, after: Tokens) {
    |before| <= |after| && forall i | 0 <= i < |before| :: SameToken(before[i], after[i])
  }

  /** An issue adds one live token, or finds its label taken. */
  lemma IssuedExtends(tokens: Tokens, name: string, host: Option<string>, secret: Secret, now: int)
    requires LabelsUnique(tokens) && DigestsUnique(tokens)
    ensures var r := Issued(tokens, name, host, secret, now);
            if exists i :: 0 <= i < |tokens| && tokens[i].name == name then r == Err(AlreadyIssued)
            else
              && r.Ok? && Extends(tokens, r.value) && LabelsUnique(r.value)
              && |r.value| == |tokens| + 1 && r.value[..|tokens|] == tokens
              && var added := r.value[|tokens|];
              && added.name == name && added.host == host && added.sha256 == Sha256(secret)
              && added.issuedAt == now && added.revokedAt == None
              && (ByDigest(tokens, Sha256(secret)) == -1 ==> DigestsUnique(r.value))
  {
  }

  /** The token of the label at `i`, if it is one. */
  predicate Labelled(tokens: Tokens, name: string, i: int) {
    0 <= i < |tokens| && tokens[i].name == name
  }

  /** A revocation marks the one token of its label, if it has one that lives, and no other. */
  lemma RevokedExtends(tokens: Tokens, name: string, now: int)
    requires LabelsUnique(tokens) && DigestsUnique(tokens)
    ensures var r := RevokedIn(tokens, name, now);
            && ((forall i :: !Labelled(tokens, name, i)) <==> r == Err(NotIssued))
            && ((exists i :: Labelled(tokens, name, i) && tokens[i].revokedAt.Some?) <==> r == Err(AlreadyRevoked))
            && (r.Ok? ==> && Extends(tokens, r.value) && LabelsUnique(r.value) && DigestsUnique(r.value)
                          && |r.value| == |tokens|
                          && forall i | 0 <= i < |tokens| :: if tokens[i].name == name then r.value[i].revokedAt == Some(now)
                                                             else r.value[i] == tokens[i])
  {
    assert forall i | 0 <= i < |tokens| :: tokens[i].name == name ==> Labelled(tokens, name, i);
    var i := ByLabel(tokens, name);
    assert i != -1 ==> Labelled(tokens, name, i);
  }

  /** The token of a secret. */
  predicate Holds(tokens: Tokens, secret: Secret, i: int) {
    0 <= i < |tokens| && tokens[i].sha256 == Sha256(secret)
  }

  /** Whom a file lets in, and what it tells the others: a secret without a
      token is not one issued; the bearer of a live one is named, on its endpoint. */
  lemma VerifiedExactly(tokens: Tokens, secret: Secret, host: string)
    requires DigestsUnique(tokens)
    ensures var r := Verified(tokens, secret, host);
            && (r == Err(NotIssued) <==> forall i :: !Holds(tokens, secret, i))
            && (r == Err(Revoked) <==> exists i :: Holds(tokens, secret, i) && tokens[i].revokedAt.Some?)
            && (r == Err(WrongEndpoint) <==>
                  exists i :: Holds(tokens, secret, i) && tokens[i].revokedAt.None? && tokens[i].host.Some? && tokens[i].host.value != host)
            && (forall name :: r == Ok(name) <==>
                  exists i :: Holds(tokens, secret, i) && tokens[i].revokedAt.None? && tokens[i].name == name
                              && (tokens[i].host == None || tokens[i].host == Some(host)))
  {
    var found := ByDigest(tokens, Sha256(secret));
    if found == -1 {
      assert forall i :: !Holds(tokens, secret, i);
    } else {
      assert Holds(tokens, secret, found) && forall i :: Holds(tokens, secret, i) ==> i == found;
    }
  }

  /** The file as one process changes it, its lock held throughout. Whether the
      lock is taken, the new version renamed into place and the directory synced
      are the system's answers; a version renamed but not synced is an error
      that leaves the file changed. */
  class TokenStore {
    var tokens: Tokens

    constructor ()
      ensures tokens == []
    {
      tokens := [];
    }

    method Issue(name: string, host: Option<string>, secret: Secret, now: int, locked: bool, renamed: bool, synced: bool)
      returns (r: Result<Secret, Error>)
      modifies this
      ensures var changes := HostAllowed(host) && LabelAllowed(name) && locked && renamed
                             && Issued(old(tokens), name, host, secret, now).Ok?;
              && (if changes then Ok(tokens) == Issued(old(tokens), name, host, secret, now) else tokens == old(tokens))
              && (if changes && synced then r == Ok(secret) else r.Err?)
    {
      if !HostAllowed(host) {
        return Err(UnknownHost);
      }
      if !LabelAllowed(name) {
        return Err(BadLabel);
      }
      if !locked {
        return Err(Busy);
      }
      if ByLabel(tokens, name) != -1 {
        return Err(AlreadyIssued);
      }
      if !renamed {
        return Err(NoStore);
      }
      tokens := tokens + [EdgeToken(name, Sha256(secret), now, None, host)];
      return if synced then Ok(secret) else Err(NoStore);
    }

    method Revoke(name: string, now: int, locked: bool, renamed: bool, synced: bool) returns (r: Result<(), Error>)
      modifies this
      ensures var changes := locked && renamed && RevokedIn(old(tokens), name, now).Ok?;
              && (if changes then Ok(tokens) == RevokedIn(old(tokens), name, now) else tokens == old(tokens))
              && (r.Ok? <==> changes && synced)
    {
      if !locked {
        return Err(Busy);
      }
      var i := ByLabel(tokens, name);
      if i == -1 {
        return Err(NotIssued);
      }
      if tokens[i].revokedAt.Some? {
        return Err(AlreadyRevoked);
      }
      if !renamed {
        return Err(NoStore);
      }
      tokens := tokens[i := tokens[i].(revokedAt := Some(now))];
      return if synced then Ok(()) else Err(NoStore);
    }
  }
}

/** Any number of processes changing the file at once, each able to stop
    anywhere, and the machine able to lose power. */
module TokenRuns {
  import opened Wrappers
  import opened TokenFile

  datatype Operation = Issue(name: string, host: Option<string>) | Revoke(name: string)

  /** Where a process stands: before its lock, holding it, having read the file,
      having renamed the new version into place, having synced the directory. */
  datatype Pc = Waiting | Holding | Loaded(read: Tokens) | Renamed | Synced | Returned(ok: bool) | Dead

  datatype Process = Process(operation: Operation, pc: Pc)

  /** `durable` is the version last synced and `unsynced` those renamed into
      place since, in order: a power loss may leave any of them. */
  datatype Disk = Disk(durable: Tokens, unsynced: seq<Tokens>, lock: Option<nat>, processes: map<nat, Process>) {
    function File(): Tokens {
      if unsynced == [] then durable else unsynced[|unsynced| - 1]
    }

    function Left(kept: nat): Tokens {
      if 0 < kept <= |unsynced| then unsynced[kept - 1] else durable
    }
  }

  datatype Step =
    | Begin(n: nat, operation: Operation)
    | Lock(n: nat)
    | Load(n: nat)
    | Rename(n: nat, now: int)
    | Sync(n: nat)
    | Return(n: nat)
    | Fail(n: nat)
    | Kill(n: nat)
    | PowerLoss(kept: nat)

  const EMPTY := Disk([], [], None, map[])

  predicate HoldsLock(pc: Pc) {
    pc.Holding? || pc.Loaded? || pc.Renamed? || pc.Synced?
  }

  /** What is refused before the lock is asked for. */
  predicate Permitted(operation: Operation) {
    operation.Issue? ==> HostAllowed(operation.host) && LabelAllowed(operation.name)
  }

  function Begun(operation: Operation): Pc {
    if Permitted(operation) then Waiting else Returned(false)
  }

  function Changed(n: nat, operation: Operation, read: Tokens, now: int): Result<Tokens, Error> {
    match operation
    case Issue(name, host) => Issued(read, name, host, n, now)
    case Revoke(name) => RevokedIn(read, name, now)
  }

  function At(d: Disk, n: nat, pc: Pc): map<nat, Process>
    requires n in d.processes
  {
    d.processes[n := d.processes[n].(pc := pc)]
  }

  /** Process `n` is over: its lock, if it holds it, is free. */
  function Ended(d: Disk, n: nat, pc: Pc): Disk
    requires n in d.processes
  {
    d.(processes := At(d, n, pc), lock := if HoldsLock(d.processes[n].pc) then None else d.lock)
  }

  function WithRenamed(d: Disk, n: nat, written: Tokens): Disk
    requires n in d.processes
  {
    d.(unsynced := d.unsynced + [written], processes := At(d, n, Renamed))
  }

  function Interrupted(p: Process): Process {
    if p.pc.Returned? then p else p.(pc := Dead)
  }

  /** A step that is not its process's next one changes nothing. */
  function Next(d: Disk, s: Step): Disk {
    if s.PowerLoss? then
      Disk(d.Left(s.kept), [], None, map n | n in d.processes :: Interrupted(d.processes[n]))
    else if s.Begin? then
      if s.n in d.processes then d else d.(processes := d.processes[s.n := Process(s.operation, Begun(s.operation))])
    else if s.n !in d.processes then d
    else
      var n, p := s.n, d.processes[s.n];
      match s
      case Lock(_) =>
        if p.pc.Waiting? && d.lock.None? then d.(processes := At(d, n, Holding), lock := Some(n)) else d
      case Load(_) => if p.pc.Holding? then d.(processes := At(d, n, Loaded(d.File()))) else d
      case Rename(_, now) =>
        if !p.pc.Loaded? then d
        else
          (match Changed(n, p.operation, p.pc.read, now)
           case Ok(written) => WithRenamed(d, n, written)
           case Err(_) => Ended(d, n, Returned(false)))
      case Sync(_) => if p.pc.Renamed? then d.(durable := d.File(), unsynced := [], processes := At(d, n, Synced)) else d
      case Return(_) => if p.pc.Synced? then Ended(d, n, Returned(true)) else d
      case Fail(_) => if p.pc.Synced? || p.pc.Returned? || p.pc.Dead? then d else Ended(d, n, Returned(false))
      case Kill(_) => if p.pc.Returned? then d else Ended(d, n, Dead)
      case _ => d
  }

  function Run(d: Disk, steps: seq<Step>): Disk
    decreases |steps|
  {
    if steps == [] then d else Run(Next(d, steps[0]), steps[1..])
  }

  /** What an operation that reached the file left there. */
  predicate Done(n: nat, operation: Operation, tokens: Tokens) {
    exists i | 0 <= i < |tokens| ::
      && tokens[i].name == operation.name
      && match operation
         case Issue(_, host) => tokens[i].sha256 == Sha256(n) && tokens[i].host == host
         case Revoke(_) => tokens[i].revokedAt.Some?
  }

  predicate NotDrawn(n: nat, tokens: Tokens) {
    forall i | 0 <= i < |tokens| :: tokens[i].sha256 != Sha256(n)
  }

  predicate ProcessOk(d: Disk, n: nat, p: Process) {
    && (HoldsLock(p.pc) ==> d.lock == Some(n))
    && (p.pc.Waiting? || p.pc.Holding? || p.pc.Loaded? ==> NotDrawn(n, d.File()) && Permitted(p.operation))
    && (p.pc.Loaded? ==> p.pc.read == d.File())
    && (p.pc.Renamed? ==> Done(n, p.operation, d.File()))
    && (p.pc.Synced? || p.pc == Returned(true) ==> Done(n, p.operation, d.durable))
  }

  /** A token is one that some process began to issue: its secret, label and endpoint. */
  predicate Drawn(processes: map<nat, Process>, token: EdgeToken) {
    && token.sha256.secret in processes
    && processes[token.sha256.secret].operation == Issue(token.name, token.host)
    && Permitted(processes[token.sha256.secret].operation)
  }

  predicate AllDrawn(d: Disk) {
    forall i | 0 <= i < |d.File()| :: Drawn(d.processes, d.File()[i])
  }

  /** Each version a power loss may leave extends the durable one, and the file extends it. */
  predicate Between(d: Disk) {
    && Extends(d.durable, d.File())
    && forall i | 0 <= i < |d.unsynced| :: Extends(d.durable, d.unsynced[i]) && Extends(d.unsynced[i], d.File())
  }

  predicate FileOk(d: Disk) {
    LabelsUnique(d.File()) && DigestsUnique(d.File()) && Between(d) && AllDrawn(d)
  }

  predicate Inv(d: Disk) {
    FileOk(d) && forall n | n in d.processes :: ProcessOk(d, n, d.processes[n])
  }

  lemma ChangedExtends(d: Disk, n: nat, now: int)
    requires FileOk(d) && n in d.processes && NotDrawn(n, d.File()) && Permitted(d.processes[n].operation)
    requires Changed(n, d.processes[n].operation, d.File(), now).Ok?
    ensures var after := Changed(n, d.processes[n].operation, d.File(), now).value;
            && LabelsUnique(after) && DigestsUnique(after) && Extends(d.File(), after)
            && Done(n, d.processes[n].operation, after)
            && (forall m | m != n && m in d.processes && NotDrawn(m, d.File()) :: NotDrawn(m, after))
            && forall i | 0 <= i < |after| :: Drawn(d.processes, after[i])
  {
    var after := Changed(n, d.processes[n].operation, d.File(), now).value;
    match d.processes[n].operation
    case Issue(name, host) =>
      IssuedExtends(d.File(), name, host, n, now);
      assert after[|d.File()|].name == name;
      forall i | 0 <= i < |after| ensures Drawn(d.processes, after[i]) {
        assert i < |d.File()| ==> after[i] == after[..|d.File()|][i];
      }
    case Revoke(name) =>
      RevokedExtends(d.File(), name, now);
      assert after[ByLabel(d.File(), name)].name == name;
      forall i | 0 <= i < |after| ensures Drawn(d.processes, after[i]) {
        assert SameToken(d.File()[i], after[i]) && Drawn(d.processes, d.File()[i]);
      }
  }

  lemma ExtendsTransitive(a: Tokens, b: Tokens, c: Tokens)
    requires Extends(a, b) && Extends(b, c)
    ensures Extends(a, c)
  {
  }

  lemma DoneKept(n: nat, operation: Operation, before: Tokens, after: Tokens)
    requires Done(n, operation, before) && Extends(before, after)
    ensures Done(n, operation, after)
  {
    var i :| && 0 <= i < |before| && before[i].name == operation.name
             && match operation
                case Issue(_, host) => before[i].sha256 == Sha256(n) && before[i].host == host
                case Revoke(_) => before[i].revokedAt.Some?;
    assert SameToken(before[i], after[i]);
  }

  lemma PrefixUnique(before: Tokens, after: Tokens)
    requires Extends(before, after) && LabelsUnique(after) && DigestsUnique(after)
    ensures LabelsUnique(before) && DigestsUnique(before)
  {
    assert forall i | 0 <= i < |before| :: SameToken(before[i], after[i]);
  }

  lemma RenamedBetween(d: Disk, after: Disk)
    requires Between(d) && Extends(d.File(), after.File())
    requires after.durable == d.durable && after.unsynced == d.unsynced + [after.File()]
    ensures Between(after)
  {
    ExtendsTransitive(d.durable, d.File(), after.File());
    forall i | 0 <= i < |after.unsynced|
      ensures Extends(d.durable, after.unsynced[i]) && Extends(after.unsynced[i], after.File())
    {
      if i < |d.unsynced| {
        ExtendsTransitive(d.unsynced[i], d.File(), after.File());
      }
    }
  }

  lemma InvOf(d: Disk, n: nat)
    requires Inv(d) && n in d.processes
    ensures ProcessOk(d, n, d.processes[n])
  {
  }

  /** The processes about a rename: the one that made it, and the others, none of which holds the lock. */
  lemma ProcessesRenamed(d: Disk, n: nat, written: Tokens)
    requires Inv(d) && n in d.processes && d.processes[n].pc.Loaded?
    requires Done(n, d.processes[n].operation, written)
    requires forall m | m != n && m in d.processes && NotDrawn(m, d.File()) :: NotDrawn(m, written)
    ensures var after := WithRenamed(d, n, written);
            after.File() == written && forall m | m in after.processes :: ProcessOk(after, m, after.processes[m])
  {
    hide Done, NotDrawn, FileOk;
    var after := WithRenamed(d, n, written);
    assert ProcessOk(d, n, d.processes[n]);
    forall m | m in after.processes ensures ProcessOk(after, m, after.processes[m]) {
      assert ProcessOk(d, m, d.processes[m]);
    }
  }

  lemma InvRenamed(d: Disk, n: nat, now: int, written: Tokens)
    requires Inv(d) && n in d.processes && d.processes[n].pc.Loaded? && NotDrawn(n, d.File())
    requires Permitted(d.processes[n].operation) && Changed(n, d.processes[n].operation, d.File(), now) == Ok(written)
    ensures Inv(WithRenamed(d, n, written)) && Extends(d.File(), written)
  {
    hide Changed, ProcessOk, Done, NotDrawn, LabelsUnique, DigestsUnique, Extends;
    ChangedExtends(d, n, now);
    ProcessesRenamed(d, n, written);
    RenamedBetween(d, WithRenamed(d, n, written));
  }

  lemma InvRename(d: Disk, n: nat, now: int)
    requires Inv(d) && n in d.processes && d.processes[n].pc.Loaded?
    requires Changed(n, d.processes[n].operation, d.processes[n].pc.read, now).Ok?
    ensures Inv(Next(d, Rename(n, now))) && Extends(d.File(), Next(d, Rename(n, now)).File())
  {
    hide Inv, Changed, Extends;
    assert ProcessOk(d, n, d.processes[n]) by { InvOf(d, n); }
    InvRenamed(d, n, now, Changed(n, d.processes[n].operation, d.File(), now).value);
  }

  lemma LeftBetween(d: Disk, kept: nat)
    requires Between(d)
    ensures Extends(d.durable, d.Left(kept)) && Extends(d.Left(kept), d.File())
  {
  }

  lemma InvPowerLoss(d: Disk, kept: nat)
    requires Inv(d)
    ensures Inv(Next(d, PowerLoss(kept))) && Extends(d.durable, d.Left(kept))
  {
    var left, after := d.Left(kept), Next(d, PowerLoss(kept));
    LeftBetween(d, kept);
    PrefixUnique(left, d.File());
    forall i | 0 <= i < |left| ensures Drawn(after.processes, left[i]) {
      assert SameToken(left[i], d.File()[i]) && Drawn(d.processes, d.File()[i]);
    }
    forall m | m in after.processes ensures ProcessOk(after, m, after.processes[m]) {
      assert ProcessOk(d, m, d.processes[m]);
      if d.processes[m].pc == Returned(true) {
        DoneKept(m, d.processes[m].operation, d.durable, left);
      }
    }
  }

  lemma InvSync(d: Disk, n: nat)
    requires Inv(d) && n in d.processes && d.processes[n].pc.Renamed?
    ensures Inv(Next(d, Sync(n)))
  {
    var after := Next(d, Sync(n));
    forall m | m in after.processes ensures ProcessOk(after, m, after.processes[m]) {
      assert ProcessOk(d, m, d.processes[m]);
      if d.processes[m].pc.Synced? || d.processes[m].pc == Returned(true) {
        DoneKept(m, d.processes[m].operation, d.durable, d.File());
      }
    }
  }

  lemma FileBegun(d: Disk, n: nat, p: Process)
    requires FileOk(d) && n !in d.processes
    ensures FileOk(d.(processes := d.processes[n := p])) && NotDrawn(n, d.File())
  {
    hide LabelsUnique, DigestsUnique, Between, Permitted;
    var after := d.(processes := d.processes[n := p]);
    assert Between(after) by { OtherBetween(d, after); }
    forall i | 0 <= i < |d.File()| ensures Drawn(after.processes, d.File()[i]) && d.File()[i].sha256 != Sha256(n) {
      assert Drawn(d.processes, d.File()[i]);
    }
  }

  lemma InvBegin(d: Disk, n: nat, operation: Operation)
    requires Inv(d)
    ensures Inv(Next(d, Begin(n, operation)))
  {
    if n !in d.processes {
      FileBegun(d, n, Process(operation, Begun(operation)));
      hide Done, FileOk, NotDrawn, Permitted;
      var after := Next(d, Begin(n, operation));
      forall m | m in after.processes ensures ProcessOk(after, m, after.processes[m]) {
        assert m in d.processes ==> ProcessOk(d, m, d.processes[m]);
      }
    }
  }

  /** A step of one process that leaves the versions as they are. */
  lemma InvOther(d: Disk, s: Step)
    requires Inv(d) && !s.Begin? && !s.Rename? && !s.Sync? && !s.PowerLoss?
    ensures Inv(Next(d, s)) && Next(d, s).File() == d.File() && Next(d, s).durable == d.durable
  {
    hide Done, NotDrawn, LabelsUnique, DigestsUnique, Between;
    var after := Next(d, s);
    assert s.n in d.processes ==> ProcessOk(d, s.n, d.processes[s.n]);
    forall m | m in after.processes ensures ProcessOk(after, m, after.processes[m]) {
      assert ProcessOk(d, m, d.processes[m]);
    }
    assert Between(after) by { OtherBetween(d, after); }
  }

  lemma OtherBetween(d: Disk, after: Disk)
    requires Between(d) && after.durable == d.durable && after.unsynced == d.unsynced
    ensures Between(after)
  {
  }

  lemma InvFailedRename(d: Disk, n: nat)
    requires Inv(d) && n in d.processes && d.processes[n].pc.Loaded?
    ensures Inv(Ended(d, n, Returned(false)))
  {
    InvOther(d, Fail(n));
  }

  /** A step keeps every promise, and the file it leaves extends the file it
      found; a power loss leaves one of the versions since the durable one. */
  lemma InvNext(d: Disk, s: Step)
    requires Inv(d)
    ensures Inv(Next(d, s)) && Extends(d.durable, Next(d, s).durable)
    ensures Extends(if s.PowerLoss? then d.durable else d.File(), Next(d, s).File())
  {
    match s
    case PowerLoss(kept) => InvPowerLoss(d, kept);
    case Sync(n) => if n in d.processes && d.processes[n].pc.Renamed? { InvSync(d, n); }
    case Rename(n, now) =>
      if n in d.processes && d.processes[n].pc.Loaded? {
        if Changed(n, d.processes[n].operation, d.processes[n].pc.read, now).Ok? {
          InvRename(d, n, now);
        } else {
          InvFailedRename(d, n);
        }
      }
    case Begin(n, operation) => InvBegin(d, n, operation);
    case _ => InvOther(d, s);
  }

  lemma {:induction false} InvRun(d: Disk, steps: seq<Step>)
    requires Inv(d)
    ensures Inv(Run(d, steps)) && Extends(d.durable, Run(d, steps).durable)
    decreases |steps|
  {
    if steps != [] {
      var next := Next(d, steps[0]);
      InvNext(d, steps[0]);
      InvRun(next, steps[1..]);
      ExtendsTransitive(d.durable, next.durable, Run(d, steps).durable);
    }
  }

  // ----- What a return promises, for ever after -----

  lemma {:induction false} ReturnedStays(d: Disk, steps: seq<Step>, n: nat)
    requires n in d.processes && d.processes[n].pc.Returned?
    ensures n in Run(d, steps).processes && Run(d, steps).processes[n] == d.processes[n]
    decreases |steps|
  {
    if steps != [] {
      ReturnedStays(Next(d, steps[0]), steps[1..], n);
    }
  }

  lemma DoneForEver(d: Disk, steps: seq<Step>, n: nat)
    requires Inv(d) && n in d.processes && d.processes[n].pc == Returned(true)
    ensures var later := Run(d, steps);
            Inv(later) && Done(n, d.processes[n].operation, later.File())
  {
    InvRun(d, steps);
    var later := Run(d, steps);
    ReturnedStays(d, steps, n);
    assert ProcessOk(later, n, later.processes[n]);
    DoneKept(n, d.processes[n].operation, later.durable, later.File());
  }

  lemma RevokedIsRefused(file: Tokens, name: string, secret: Secret, host: string)
    requires LabelsUnique(file) && exists i :: 0 <= i < |file| && file[i].name == name && file[i].revokedAt.Some?
    ensures Verified(file, secret, host) != Ok(name)
  {
  }

  /** A revocation that returned: no later reader accepts any token of that
      label, on any endpoint, whoever else writes and whatever stops. */
  lemma RevocationIsPermanent(d: Disk, steps: seq<Step>, n: nat, secret: Secret, host: string)
    requires Inv(d) && n in d.processes && d.processes[n].pc == Returned(true) && d.processes[n].operation.Revoke?
    ensures Verified(Run(d, steps).File(), secret, host) != Ok(d.processes[n].operation.name)
  {
    DoneForEver(d, steps, n);
    RevokedIsRefused(Run(d, steps).File(), d.processes[n].operation.name, secret, host);
  }

  /** An issue that returned: its secret names its label to every later reader,
      on the endpoint it was bound to, until that label is revoked. */
  lemma IssuedIsNotLost(d: Disk, steps: seq<Step>, n: nat, host: string)
    requires Inv(d) && n in d.processes && d.processes[n].pc == Returned(true) && d.processes[n].operation.Issue?
    ensures var file, o := Run(d, steps).File(), d.processes[n].operation;
            && LabelsUnique(file) && ByLabel(file, o.name) != -1
            && Verified(file, n, host)
               == if file[ByLabel(file, o.name)].revokedAt.Some? then Err(Revoked)
                  else if o.host.Some? && o.host.value != host then Err(WrongEndpoint)
                  else Ok(o.name)
  {
    DoneForEver(d, steps, n);
    var file, o := Run(d, steps).File(), d.processes[n].operation;
    var i :| 0 <= i < |file| && file[i].name == o.name && file[i].sha256 == Sha256(n) && file[i].host == o.host;
    assert ByDigest(file, Sha256(n)) == i;
    assert ByLabel(file, o.name) == i;
  }

  /** Every reachable version of the file holds each label once. */
  lemma LabelsStayUnique(steps: seq<Step>)
    ensures Inv(Run(EMPTY, steps)) && LabelsUnique(Run(EMPTY, steps).File())
  {
    InvRun(EMPTY, steps);
  }

  /** Nobody is let in by a secret that was not drawn for them: one that verifies
      is that of a process that began to issue this label, for this endpoint or for every one. */
  lemma OnlyIssuedVerifies(steps: seq<Step>, secret: Secret, host: string, name: string)
    requires Verified(Run(EMPTY, steps).File(), secret, host) == Ok(name)
    ensures var processes := Run(EMPTY, steps).processes;
            && secret in processes && processes[secret].operation.Issue? && processes[secret].operation.name == name
            && (processes[secret].operation.host == None || processes[secret].operation.host == Some(host))
  {
    InvRun(EMPTY, steps);
    var d := Run(EMPTY, steps);
    VerifiedExactly(d.File(), secret, host);
    var i :| Holds(d.File(), secret, i) && d.File()[i].revokedAt.None? && d.File()[i].name == name
             && (d.File()[i].host == None || d.File()[i].host == Some(host));
    assert Drawn(d.processes, d.File()[i]);
  }

  /** Every label in every reachable version is one to 128 visible ASCII characters, no quote or
      backslash among them, and every endpoint a known one. */
  lemma TokensStayPermitted(steps: seq<Step>, i: nat)
    requires i < |Run(EMPTY, steps).File()|
    ensures var token := Run(EMPTY, steps).File()[i];
            && 0 < |token.name| <= 128
            && (forall c | c in token.name :: 32 < c as int < 127 && c != '\"' && c != '\\')
            && (token.host == None || token.host.value in {"claude-connector", "chatgpt", "m365-copilot", "copilot-cloud-agent"})
  {
    InvRun(EMPTY, steps);
    assert Drawn(Run(EMPTY, steps).processes, Run(EMPTY, steps).File()[i]);
  }

  lemma LoadsAlone(d: Disk, n: nat, operation: Operation)
    requires d.lock.None? && n !in d.processes && Permitted(operation)
    ensures Next(Next(Next(d, Begin(n, operation)), Lock(n)), Load(n))
         == d.(lock := Some(n), processes := d.processes[n := Process(operation, Loaded(d.File()))])
  {
    hide Permitted;
    assert Next(d, Begin(n, operation)) == d.(processes := d.processes[n := Process(operation, Waiting)]);
    assert Next(Next(d, Begin(n, operation)), Lock(n))
        == d.(lock := Some(n), processes := d.processes[n := Process(operation, Holding)]);
  }

  lemma WritesAlone(d: Disk, n: nat, operation: Operation, now: int, written: Tokens)
    requires n in d.processes && d.processes[n] == Process(operation, Loaded(d.File()))
    requires Changed(n, operation, d.File(), now) == Ok(written)
    ensures var after := Next(Next(Next(d, Rename(n, now)), Sync(n)), Return(n));
            n in after.processes && after.processes[n].pc == Returned(true) && after.File() == written
  {
    hide Changed;
    assert Next(d, Rename(n, now)) == WithRenamed(d, n, written);
  }

  lemma IsPermitted(name: string, host: Option<string>)
    requires 0 < |name| <= 128 && (forall c | c in name :: 32 < c as int < 127 && c != '\"' && c != '\\')
    requires host == None || host.value in {"claude-connector", "chatgpt", "m365-copilot", "copilot-cloud-agent"}
    ensures Permitted(Issue(name, host))
  {
    assert forall i | 0 <= i < |name| :: name[i] in name;
  }

  lemma IssuedVerifies(file: Tokens, n: nat, name: string, host: Option<string>, now: int, on: string)
    requires LabelsUnique(file) && DigestsUnique(file) && NotDrawn(n, file) && forall i :: !Labelled(file, name, i)
    ensures Issued(file, name, host, n, now).Ok?
    ensures host == None || host == Some(on) ==> Verified(Issued(file, name, host, n, now).value, n, on) == Ok(name)
  {
    IssuedExtends(file, name, host, n, now);
    assert ByLabel(file, name) == -1 by { assert ByLabel(file, name) != -1 ==> Labelled(file, name, ByLabel(file, name)); }
    var after := Issued(file, name, host, n, now).value;
    VerifiedExactly(after, n, on);
    assert Holds(after, n, |file|);
  }

  /** Any such label not yet in the file can be issued, and its secret then verifies. */
  lemma PermittedIsIssued(d: Disk, n: nat, name: string, host: Option<string>, now: int, on: string)
    requires Inv(d) && d.lock.None? && n !in d.processes && forall i :: !Labelled(d.File(), name, i)
    requires 0 < |name| <= 128 && (forall c | c in name :: 32 < c as int < 127 && c != '\"' && c != '\\')
    requires host == None || host.value in {"claude-connector", "chatgpt", "m365-copilot", "copilot-cloud-agent"}
    ensures var loaded := Next(Next(Next(d, Begin(n, Issue(name, host))), Lock(n)), Load(n));
            var after := Next(Next(Next(loaded, Rename(n, now)), Sync(n)), Return(n));
            && n in after.processes && after.processes[n].pc == Returned(true)
            && (host == None || host == Some(on) ==> Verified(after.File(), n, on) == Ok(name))
  {
    IsPermitted(name, host);
    LoadsAlone(d, n, Issue(name, host));
    FileBegun(d, n, Process(Issue(name, host), Waiting));
    hide Next, Permitted, Issued, Labelled, Verified, NotDrawn, LabelsUnique, DigestsUnique;
    IssuedVerifies(d.File(), n, name, host, now, on);
    WritesAlone(d.(lock := Some(n), processes := d.processes[n := Process(Issue(name, host), Loaded(d.File()))]),
                n, Issue(name, host), now, Issued(d.File(), name, host, n, now).value);
  }
}
