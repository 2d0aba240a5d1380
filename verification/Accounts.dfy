/** The accounts in the configuration store: an account owns two server accounts, one to fetch mail from and
    one to send it through, and one of the accounts is the default. */
module Accounts {
  import opened Messages
  import opened AccountNames
  import opened AccountKeys

  datatype Value = Text(text: string) | Number(number: int) | Flag(flag: bool)

  /** A key of the store: the namespace, the account and the setting it is printed from. */
  datatype ConfKey = ConfKey(server: bool, account: string, setting: string)

  type Conf = map<ConfKey, Value>

  datatype Store = Store(conf: Conf, defaultAccount: Option<string>)

  /** The escaping of keys, the order of titles, the display name used when another is missing or taken, and the
      names of the protocols that stand for none. */
  datatype Platform = Platform(ks: KeySpace, collate: (string, string) -> int, defaultName: string,
                               noProtocol: string, noAuth: string, noSecurity: string)
  {
    ghost predicate Valid() {
      && ks.Valid()
      && (forall a, b :: collate(a, b) <= 0 || collate(b, a) <= 0)
      && (forall a, b, c :: collate(a, b) <= 0 && collate(b, c) <= 0 ==> collate(a, c) <= 0)
    }
  }

  datatype ServerSettings = ServerSettings(
    uri: Option<string>, protocol: string, hostname: Option<string>, username: Option<string>,
    password: Option<string>, port: int, auth: string, security: string, offlineSync: bool, updateAllFolders: bool)

  datatype RetrieveType = HeadersOnly | WholeMessages | MessagesAndAttachments

  datatype AccountSettings = AccountSettings(
    displayName: Option<string>, fullname: Option<string>, email: Option<string>, retrieveType: RetrieveType,
    retrieveLimit: int, leaveOnServer: bool, signature: Option<string>, useSignature: bool, useSpecificSmtp: bool,
    store: ServerSettings, transport: ServerSettings)

  // ----- reading the store -----

  /** The accounts with some key in the store. */
  function Names(conf: Conf, server: bool): set<string> {
    set k | k in conf && k.server == server :: k.account
  }

  function GetString(conf: Conf, account: string, setting: string, server: bool): Option<string> {
    var k := ConfKey(server, account, setting);
    if k in conf && conf[k].Text? then Some(conf[k].text) else None
  }

  function GetBool(conf: Conf, account: string, setting: string, server: bool): bool {
    var k := ConfKey(server, account, setting);
    k in conf && conf[k] == Flag(true)
  }

  /** An int, or 0 if it was never set. */
  function GetInt(conf: Conf, account: string, setting: string, server: bool): int {
    var k := ConfKey(server, account, setting);
    if k !in conf then 0 else if conf[k].Number? then conf[k].number else -1
  }

  function Or(text: Option<string>, other: string): string {
    if text.Some? then text.value else other
  }

  function RetrieveName(t: RetrieveType): string {
    match t
    case HeadersOnly => "headers-only"
    case WholeMessages => "messages"
    case MessagesAndAttachments => "messages-and-attachments"
  }

  function RetrieveTypeOf(name: Option<string>): RetrieveType {
    if name == Some("messages") then WholeMessages
    else if name == Some("messages-and-attachments") then MessagesAndAttachments
    else HeadersOnly
  }

  predicate Owns(conf: Conf, account: string, serverAccount: string) {
    && account in Names(conf, false)
    && (GetString(conf, account, "store_account", false) == Some(serverAccount)
        || GetString(conf, account, "transport_account", false) == Some(serverAccount))
  }

  predicate Missing(conf: Conf, serverAccount: Option<string>) {
    serverAccount.Some? && serverAccount.value !in Names(conf, true)
  }

  /** modest_account_mgr_account_names lists the accounts whose server accounts exist. The server accounts
      it looks for are those of the account called like the escaped name. */
  predicate IsListed(p: Platform, conf: Conf, account: string, onlyEnabled: bool) {
    && account in Names(conf, false)
    && (onlyEnabled ==> GetBool(conf, account, "enabled", false))
    && !Missing(conf, GetString(conf, p.ks.escape(account), "store_account", false))
    && !Missing(conf, GetString(conf, p.ks.escape(account), "transport_account", false))
  }

  /** modest_account_mgr_load_server_settings. */
  function LoadServer(p: Platform, conf: Conf, name: string): Option<ServerSettings> {
    var proto := GetString(conf, name, "proto", true);
    var uri := GetString(conf, name, "uri", true);
    var username := GetString(conf, name, "username", true);
    var hostname := GetString(conf, name, "hostname", true);
    if name !in Names(conf, true) || proto.None? || (uri.None? && (username.None? || hostname.None?)) then None
    else
      Some(ServerSettings(
        uri, proto.value, hostname, username, GetString(conf, name, "password", true), GetInt(conf, name, "port", true),
        Or(GetString(conf, name, "auth_mech", true), p.noAuth),
        Or(GetString(conf, name, "security", true), p.noSecurity),
        GetBool(conf, name, "offline_sync", true), GetBool(conf, name, "update_all_folders", true)))
  }

  /** The server settings of an account that names no server account. */
  function NewServer(p: Platform): ServerSettings {
    ServerSettings(None, p.noProtocol, None, None, None, 0, p.noAuth, p.noSecurity, false, false)
  }

  function LoadNamed(p: Platform, conf: Conf, name: Option<string>): Option<ServerSettings> {
    if name.Some? then LoadServer(p, conf, name.value) else Some(NewServer(p))
  }

  datatype Loaded = Loaded(settings: AccountSettings, enabled: bool, isDefault: bool)

  /** modest_account_mgr_load_account_settings. */
  function LoadAccount(p: Platform, s: Store, name: string): Option<Loaded> {
    var conf := s.conf;
    var store := LoadNamed(p, conf, GetString(conf, name, "store_account", false));
    var transport := LoadNamed(p, conf, GetString(conf, name, "transport_account", false));
    if name !in Names(conf, false) || store.None? || transport.None? then None
    else
      Some(Loaded(
        AccountSettings(
          GetString(conf, name, "display_name", false), GetString(conf, name, "fullname", false),
          GetString(conf, name, "email", false), RetrieveTypeOf(GetString(conf, name, "retrieve", false)),
          GetInt(conf, name, "limit-retrieve", false), GetBool(conf, name, "leave_on_server", false),
          GetString(conf, name, "signature", false), GetBool(conf, name, "use_signature", false),
          GetBool(conf, name, "use_specific_smtp", false), store.value, transport.value),
        GetBool(conf, name, "enabled", false), Default(s) == Some(name)))
  }

  predicate ShowsAs(p: Platform, s: Store, account: string, displayName: string) {
    && IsListed(p, s.conf, account, true)
    && LoadAccount(p, s, account).Some? && LoadAccount(p, s, account).value.settings.displayName == Some(displayName)
  }

  predicate DisplayNameExists(p: Platform, s: Store, displayName: string) {
    exists n :: n in Names(s.conf, false) && ShowsAs(p, s, n, displayName)
  }

  /** modest_account_mgr_get_default_account: a default that does not exist is no default. */
  function Default(s: Store): Option<string> {
    if s.defaultAccount.Some? && s.defaultAccount.value in Names(s.conf, false) then s.defaultAccount else None
  }

  // ----- adding -----

  function NullMeansEmpty(text: Option<string>): string {
    if text.Some? then text.value else ""
  }

  function WithText(values: map<string, Value>, setting: string, text: Option<string>): map<string, Value> {
    if text.Some? then values[setting := Text(text.value)] else values
  }

  function ServerValues(s: ServerSettings): map<string, Value> {
    if s.uri.None? then
      map[]["hostname" := Text(NullMeansEmpty(s.hostname))]["username" := Text(NullMeansEmpty(s.username))]
      ["password" := Text(NullMeansEmpty(s.password))]["proto" := Text(s.protocol)]["port" := Number(s.port)]
      ["auth_mech" := Text(s.auth)]["security" := Text(s.security)]["offline_sync" := Flag(s.offlineSync)]
      ["update_all_folders" := Flag(s.updateAllFolders)]
    else
      map[]["uri" := Text(s.uri.value)]["proto" := Text(s.protocol)]
  }

  function OwnValues(s: AccountSettings): map<string, Value> {
    var named := WithText(WithText(WithText(map[], "display_name", s.displayName), "fullname", s.fullname),
                          "email", s.email);
    named["retrieve" := Text(RetrieveName(s.retrieveType))]["limit-retrieve" := Number(s.retrieveLimit)]
    ["leave_on_server" := Flag(s.leaveOnServer)]["use_signature" := Flag(s.useSignature)]
    ["signature" := Text(NullMeansEmpty(s.signature))]["use_specific_smtp" := Flag(s.useSpecificSmtp)]
  }

  /** The three names an account is stored under. */
  datatype Chosen = Chosen(account: string, store: string, transport: string)

  function AccountValues(s: AccountSettings, n: Chosen): map<string, Value> {
    OwnValues(s)["store_account" := Text(n.store)]["transport_account" := Text(n.transport)]["enabled" := Flag(true)]
  }

  function Entries(server: bool, account: string, values: map<string, Value>): Conf {
    map k | k in values :: ConfKey(server, account, k) := values[k]
  }

  function Saved(conf: Conf, settings: AccountSettings, n: Chosen): Conf {
    conf + Entries(false, n.account, AccountValues(settings, n)) + Entries(true, n.store, ServerValues(settings.store))
    + Entries(true, n.transport, ServerValues(settings.transport))
  }

  ghost predicate IsFirstUnused(used: set<string>, start: string, name: string) {
    exists k: nat :: k <= |used| && name == Nth(Incremented, start, k) && name !in used && AllUsed(used, start, k)
  }

  predicate KeepsDisplayName(p: Platform, s: Store, settings: AccountSettings) {
    settings.displayName.Some? && !DisplayNameExists(p, s, settings.displayName.value)
  }

  function StartName(p: Platform, s: Store, settings: AccountSettings): string {
    (if KeepsDisplayName(p, s, settings) then settings.displayName.value else p.defaultName) + "ID"
  }

  ghost predicate IsChoice(p: Platform, s: Store, settings: AccountSettings, n: Chosen) {
    && IsFirstUnused(Names(s.conf, false), StartName(p, s, settings), n.account)
    && IsFirstUnused(Names(s.conf, true), n.account + "_store", n.store)
    && IsFirstUnused(Names(s.conf, true), n.account + "_transport", n.transport)
  }

  /** modest_account_mgr_add_account_from_settings, when every write succeeds. */
  function Added(s: Store, settings: AccountSettings, n: Chosen): Store {
    Store(Saved(s.conf, settings, n), if Default(s).None? then Some(n.account) else s.defaultAccount)
  }

  // ----- removing -----

  /** The keys of an account and of the server accounts it names. */
  function OwnKeys(conf: Conf, account: string): set<ConfKey> {
    set k | k in conf && (if k.server then Owns(conf, account, k.account) else k.account == account)
  }

  /** The first of the enabled accounts by title. */
  ghost predicate IsFirstByTitle(p: Platform, conf: Conf, account: Option<string>) {
    match account
    case Some(n) => IsListed(p, conf, n, true) && forall m :: IsListed(p, conf, m, true) ==> p.collate(n, m) <= 0
    case None => forall m :: !IsListed(p, conf, m, true)
  }

  /** modest_account_mgr_remove_account. */
  ghost predicate IsRemoved(p: Platform, s: Store, account: string, s': Store) {
    if account !in Names(s.conf, false) then s' == s
    else
      && s'.conf == s.conf - OwnKeys(s.conf, account)
      && (if Default(s) == Some(account) then IsFirstByTitle(p, s'.conf, s'.defaultAccount)
          else s'.defaultAccount == s.defaultAccount)
  }

  // ----- histories -----

  datatype Change = Add(settings: AccountSettings) | Remove(account: string)

  ghost predicate Follows(p: Platform, s: Store, c: Change, s': Store) {
    match c
    case Add(settings) => exists n :: IsChoice(p, s, settings, n) && s' == Added(s, settings, n)
    case Remove(account) => IsRemoved(p, s, account, s')
  }

  ghost predicate IsHistory(p: Platform, states: seq<Store>, changes: seq<Change>) {
    && |states| == |changes| + 1
    && states[0] == Store(map[], None)
    && forall k {:trigger changes[k]} :: 0 <= k < |changes| ==> Follows(p, states[k], changes[k], states[k + 1])
  }
}
