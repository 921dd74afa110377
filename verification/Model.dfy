/** The records that the management service keeps: management/server/{account,peer,group,rule,user,setupkey}.go. */
module Model {
  import opened IpAllocation

  datatype Error = NotFound | InvalidArgument | FailedPrecondition | OutOfRange | PermissionDenied | Internal | Plain

  datatype Result<+T> = Ok(value: T) | Err(error: Error)

  const PRIVATE_CATEGORY := "private"
  const ALL_GROUP := "All"
  /** DefaultSetupKeyDuration, in seconds. */
  const DEFAULT_KEY_DURATION := 24 * 30 * 3600
  const FLOW_BIDIRECT: int := 0

  datatype Meta = Meta(hostname: string, goOS: string, kernel: string, core: string,
                       platform: string, os: string, wtVersion: string, uiVersion: string)

  datatype PeerStatus = PeerStatus(connected: bool, lastSeen: int)

  datatype Peer = Peer(key: string, setupKey: string, ip: Addr, meta: Meta, name: string,
                       status: PeerStatus, userId: string)

  datatype Group = Group(id: string, name: string, peers: seq<string>)

  datatype Rule = Rule(id: string, name: string, source: seq<string>, destination: seq<string>, flow: int)

  datatype Role = Admin | Regular

  datatype User = User(id: string, role: Role)

  datatype KeyType = Reusable | OneOff

  datatype SetupKey = SetupKey(id: string, key: string, name: string, typ: KeyType, createdAt: int,
                               expiresAt: int, revoked: bool, usedTimes: nat, lastUsed: int)
  {
    predicate IsExpired(now: int) {
      now > expiresAt
    }

    predicate IsOverUsed() {
      typ == OneOff && usedTimes >= 1
    }

    predicate IsValid(now: int) {
      !revoked && !IsExpired(now) && !IsOverUsed()
    }

    function IncrementUsage(now: int): SetupKey {
      this.(usedTimes := usedTimes + 1, lastUsed := now)
    }
  }

  /** `Network`: the serial counts the changes to the peer set. */
  datatype Network = Network(id: string, net: IPNet, dns: string, serial: nat) {
    function IncSerial(): Network {
      this.(serial := serial + 1)
    }
  }

  datatype Account = Account(id: string, createdBy: string, domain: string, domainCategory: string,
                             isPrimary: bool, setupKeys: map<string, SetupKey>, network: Network,
                             peers: map<string, Peer>, users: map<string, User>,
                             groups: map<string, Group>, rules: map<string, Rule>)
  {
    /** The groups GetGroupAll may return; it takes the first one its map iteration meets. */
    function AllGroups(): set<string> {
      set g | g in groups && groups[g].name == ALL_GROUP
    }

    function TakenIps(): set<Addr> {
      set k | k in peers :: peers[k].ip
    }

    /** SaveAccount and GetNetworkMap dereference the groups that rules name. */
    predicate RulesNameGroups() {
      forall r :: r in rules ==>
        (forall g :: g in rules[r].source ==> g in groups) && (forall g :: g in rules[r].destination ==> g in groups)
    }

    predicate PrivatePrimary() {
      domainCategory == PRIVATE_CATEGORY && isPrimary
    }

    /** The maps are keyed by what they hold, and setup keys are stored in upper case. */
    ghost predicate WellFormed() {
      && (forall k :: k in setupKeys ==> setupKeys[k].key == k && Upper(k) == k)
      && (forall k :: k in peers ==> peers[k].key == k)
      && (forall u :: u in users ==> users[u].id == u)
      && (forall g :: g in groups ==> groups[g].id == g)
      && (forall r :: r in rules ==> rules[r].id == r)
      && RulesNameGroups()
      && network.net.Valid()
    }
  }

  // ----- strings.ToUpper and strings.ToLower on ASCII -----

  function UpperChar(c: char): char {
    if 'a' <= c <= 'z' then (c as int - 32) as char else c
  }

  function LowerChar(c: char): char {
    if 'A' <= c <= 'Z' then (c as int + 32) as char else c
  }

  function Upper(s: string): (r: string)
    ensures |r| == |s|
  {
    seq(|s|, i requires 0 <= i < |s| => UpperChar(s[i]))
  }

  function Lower(s: string): (r: string)
    ensures |r| == |s|
  {
    seq(|s|, i requires 0 <= i < |s| => LowerChar(s[i]))
  }

  lemma UpperIdempotent(s: string)
    ensures Upper(Upper(s)) == Upper(s)
  {
  }

  // ----- sequences -----

  /** `order` lists the elements of `keys`, each once: one order in which Go may iterate a map. */
  ghost predicate IsListing(order: seq<string>, keys: set<string>) {
    && (forall k :: k in order <==> k in keys)
    && (forall i, j :: 0 <= i < j < |order| ==> order[i] != order[j])
  }

  function Without(s: seq<string>, key: string): (r: seq<string>)
    ensures forall k :: k in r <==> k in s && k != key
  {
    if s == [] then []
    else if s[0] == key then Without(s[1..], key)
    else [s[0]] + Without(s[1..], key)
  }
}
