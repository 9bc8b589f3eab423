/** The installer wizard's page-sequencing controller (MainWindow in
    installer/host/qt_host_installer/mainwindow.cpp) as values: the state the
    window accumulates, and one function per slot giving the state after it. */
module Wizard {
  import opened StringReplace

  datatype Option<T> = None | Some(value: T)

  /** The wizard's pages. Spinner is the label shown while the mirror resolves,
      Update the update notice. */
  datatype Page =
    | Spinner | Lang | Update | Version | Preseed | Network
    | Advanced | WiFi | DiskSelect | License | Download

  /** A supported target device, reduced to what the controller reads of it. */
  datatype Device = Device(name: string, shortName: string, allowsPreseedingNetwork: bool)

  /** An opaque handle on the destination disk chosen on the disk page. */
  datatype Disk = Disk(handle: nat)

  /** The contents of a NetworkSettings object. */
  datatype Settings = Settings(
    dhcp: bool, wireless: bool,
    ip: string, mask: string, gw: string, dns1: string, dns2: string,
    ssid: string, keyType: int, keyValue: string)

  /** Everything the main window keeps between two slots. Fields the source leaves
      unset until a slot writes them are `None` until then; `built` holds the pages
      whose global pointer has been assigned; `networkPageFlag` and `downloadUrl`
      are the arguments the network page and the download page were built with. */
  datatype WindowState = WindowState(
    visible: set<Page>,
    built: set<Page>,
    mirrorUrl: string,
    language: string,
    device: Option<Device>,
    image: string,
    isOnline: Option<bool>,
    installType: Option<int>,
    networkPageFlag: bool,
    nss: Option<Settings>,
    disk: Option<Disk>,
    downloadUrl: string,
    translations: seq<string>,
    translatorInstalled: bool)

  /** The mirror the window starts from. */
  const DefaultMirror: string := "http://download.osmc.tv"
  /** The text that setVersion replaces in an online build URL. */
  const DefaultMirrorPrefix: string := "http://download.osmc.tv/"
  /** The language label for which no translation is loaded. */
  const EnglishLabel: string := "English"
  /** utils::INSTALL_NFS; only compared for equality. */
  const InstallNfs: int := 3
  /** utils::WIRELESS_ENCRYPTION_NONE. */
  const WirelessEncryptionNone: int := 0

  /** A freshly constructed NetworkSettings object. */
  function DefaultSettings(): Settings {
    Settings(false, false, "", "", "", "", "", "", 0, "")
  }

  /** rotateWidget: hide the old page, show the new one. */
  function Rotate(visible: set<Page>, oldPage: Page, newPage: Page): set<Page> {
    visible - {oldPage} + {newPage}
  }

  /** translate(locale): a load of the locale's translation is attempted; when it
      loads, the translator is installed. */
  function Translate(w: WindowState, locale: string, loads: bool): WindowState {
    w.(translations := w.translations + [locale],
       translatorInstalled := w.translatorInstalled || loads)
  }

  /** The window as its constructor leaves it: the spinner showing, the update
      notice built but hidden, the default mirror, one translation attempted for
      the system locale. */
  function Init(systemLocale: string, translationLoads: bool): WindowState {
    var blank := WindowState(
      visible := {Spinner}, built := {Spinner, Update}, mirrorUrl := DefaultMirror,
      language := "", device := None, image := "", isOnline := None,
      installType := None, networkPageFlag := false, nss := None, disk := None,
      downloadUrl := "", translations := [], translatorInstalled := false);
    Translate(blank, systemLocale, translationLoads)
  }

  /** replyFinished: the mirror becomes the redirect target and the language
      page replaces the spinner. */
  function ReplyFinished(w: WindowState, redirectTarget: string): WindowState {
    w.(mirrorUrl := redirectTarget,
       built := w.built + {Lang},
       visible := Rotate(w.visible, Spinner, Lang))
  }

  /** showUpdate: the update notice replaces the language page. */
  function ShowUpdate(w: WindowState): WindowState
    requires Lang in w.built
  {
    w.(visible := Rotate(w.visible, Lang, Update))
  }

  /** dismissUpdate: the language page replaces the update notice. */
  function DismissUpdate(w: WindowState): WindowState
    requires Lang in w.built
  {
    w.(visible := Rotate(w.visible, Update, Lang))
  }

  /** setLanguage: language and device recorded; a translation is attempted
      unless the language is English, for which the translator is removed. */
  function SetLanguage(w: WindowState, language: string, device: Device, translationLoads: bool): WindowState {
    var translated :=
      if language != EnglishLabel then Translate(w, language, translationLoads)
      else w.(translatorInstalled := false);
    translated.(language := language, device := Some(device),
                built := w.built + {Version}, visible := Rotate(w.visible, Lang, Version))
  }

  /** setVersion: an online build URL has the default mirror prefix rewritten to
      the resolved mirror; a local image is kept as given. */
  function SetVersion(w: WindowState, isOnline: bool, image: string): WindowState {
    var stored := if isOnline then ReplaceAll(image, DefaultMirrorPrefix, w.mirrorUrl) else image;
    w.(isOnline := Some(isOnline), image := stored,
       built := w.built + {Preseed}, visible := Rotate(w.visible, Version, Preseed))
  }

  /** setPreseed: the install type recorded; the network page follows when the
      device can have its network preseeded, the disk page otherwise. */
  function SetPreseed(w: WindowState, installType: int): WindowState
    requires w.device.Some?
  {
    var typed := w.(installType := Some(installType));
    if w.device.value.allowsPreseedingNetwork then
      typed.(networkPageFlag := if installType == InstallNfs then false else true,
             built := w.built + {Network}, visible := Rotate(w.visible, Preseed, Network))
    else
      typed.(built := w.built + {DiskSelect}, visible := Rotate(w.visible, Preseed, DiskSelect))
  }

  /** setNetworkInitial: fresh network settings, then one of three pages. */
  function SetNetworkInitial(w: WindowState, useWireless: bool, advanced: bool): WindowState {
    if advanced then
      w.(nss := Some(DefaultSettings().(dhcp := false, wireless := useWireless)),
         built := w.built + {Advanced}, visible := Rotate(w.visible, Network, Advanced))
    else if useWireless then
      w.(nss := Some(DefaultSettings().(dhcp := true, wireless := true)),
         built := w.built + {WiFi}, visible := Rotate(w.visible, Network, WiFi))
    else
      w.(nss := Some(DefaultSettings().(dhcp := true, wireless := false)),
         built := w.built + {DiskSelect}, visible := Rotate(w.visible, Network, DiskSelect))
  }

  /** setNetworkAdvanced: the static addresses recorded; the Wi-Fi page follows
      when the settings ask for wireless, the disk page otherwise. */
  function SetNetworkAdvanced(w: WindowState, ip: string, mask: string, gw: string, dns1: string, dns2: string): WindowState
    requires w.nss.Some?
  {
    var s := w.nss.value.(ip := ip, mask := mask, gw := gw, dns1 := dns1, dns2 := dns2);
    var next := if s.wireless then WiFi else DiskSelect;
    w.(nss := Some(s), built := w.built + {next}, visible := Rotate(w.visible, Advanced, next))
  }

  /** The guard `! keyType == none` as C++ reads it: `!keyType` is a bool (true
      exactly when keyType is zero) promoted to 1 or 0 before the comparison. */
  predicate LiteralKeyTest(keyType: int, none: int) {
    (if keyType == 0 then 1 else 0) == none
  }

  /** setWiFiConfiguration: SSID and key type recorded; the key value only when
      the literal guard holds; then the disk page. */
  function SetWiFiConfiguration(w: WindowState, ssid: string, keyType: int, keyValue: string): WindowState
    requires w.nss.Some?
  {
    var s := w.nss.value.(ssid := ssid, keyType := keyType);
    var keyed := if LiteralKeyTest(s.keyType, WirelessEncryptionNone) then s.(keyValue := keyValue) else s;
    w.(nss := Some(keyed), built := w.built + {DiskSelect}, visible := Rotate(w.visible, WiFi, DiskSelect))
  }

  /** selectNixDevice: the disk recorded, then the license page. */
  function SelectNixDevice(w: WindowState, disk: Disk): WindowState {
    w.(disk := Some(disk), built := w.built + {License}, visible := Rotate(w.visible, DiskSelect, License))
  }

  /** acceptLicense: the download page, given the build URL when online and an
      empty URL otherwise. */
  function AcceptLicense(w: WindowState): WindowState
    requires w.isOnline.Some?
  {
    w.(downloadUrl := if w.isOnline.value then w.image else "",
       built := w.built + {Download}, visible := Rotate(w.visible, License, Download))
  }

  /** The signals that reach the window's slots, named after the signals. */
  datatype Event =
    | Finished(redirectTarget: string)
    | HasUpdate
    | IgnoreUpdate
    | LanguageSelected(language: string, device: Device, translationLoads: bool)
    | VersionSelected(online: bool, image: string)
    | PreseedSelected(installType: int)
    | NetworkOptionsInit(useWireless: bool, advanced: bool)
    | AdvancedNetworkSelected(ip: string, mask: string, gw: string, dns1: string, dns2: string)
    | WifiNetworkConfigured(ssid: string, keyType: int, keyValue: string)
    | NixDeviceSelected(disk: Disk)
    | LicenseAccepted

  /** The page that must be showing for the event to arrive: a page emits its
      signal when the user acts on it, the mirror reply arrives while the spinner
      shows, and the update signal is taken to arrive while the language page
      shows. */
  function Emitter(e: Event): Page {
    match e
    case Finished(_) => Spinner
    case HasUpdate => Lang
    case IgnoreUpdate => Update
    case LanguageSelected(_, _, _) => Lang
    case VersionSelected(_, _) => Version
    case PreseedSelected(_) => Preseed
    case NetworkOptionsInit(_, _) => Network
    case AdvancedNetworkSelected(_, _, _, _, _) => Advanced
    case WifiNetworkConfigured(_, _, _) => WiFi
    case NixDeviceSelected(_) => DiskSelect
    case LicenseAccepted => License
  }

  /** What the slot dereferences or reads beyond its own page. */
  predicate Ready(w: WindowState, e: Event) {
    match e
    case HasUpdate => Lang in w.built
    case IgnoreUpdate => Lang in w.built
    case PreseedSelected(_) => w.device.Some?
    case AdvancedNetworkSelected(_, _, _, _, _) => w.nss.Some?
    case WifiNetworkConfigured(_, _, _) => w.nss.Some?
    case LicenseAccepted => w.isOnline.Some?
    case _ => true
  }

  predicate Enabled(w: WindowState, e: Event) {
    Emitter(e) in w.visible && Ready(w, e)
  }

  /** The slot the event is connected to. */
  function Step(w: WindowState, e: Event): WindowState
    requires Ready(w, e)
  {
    match e
    case Finished(target) => ReplyFinished(w, target)
    case HasUpdate => ShowUpdate(w)
    case IgnoreUpdate => DismissUpdate(w)
    case LanguageSelected(language, device, loads) => SetLanguage(w, language, device, loads)
    case VersionSelected(online, image) => SetVersion(w, online, image)
    case PreseedSelected(t) => SetPreseed(w, t)
    case NetworkOptionsInit(useWireless, advanced) => SetNetworkInitial(w, useWireless, advanced)
    case AdvancedNetworkSelected(ip, mask, gw, dns1, dns2) => SetNetworkAdvanced(w, ip, mask, gw, dns1, dns2)
    case WifiNetworkConfigured(ssid, keyType, keyValue) => SetWiFiConfiguration(w, ssid, keyType, keyValue)
    case NixDeviceSelected(disk) => SelectNixDevice(w, disk)
    case LicenseAccepted => AcceptLicense(w)
  }

  /** The state after a sequence of events, or None when one of them arrives
      while it cannot. */
  function Run(w: WindowState, events: seq<Event>): Option<WindowState>
    decreases |events|
  {
    if events == [] then Some(w)
    else if Enabled(w, events[0]) then Run(Step(w, events[0]), events[1..])
    else None
  }
}
