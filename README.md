# OSMC host installer: the wizard's page sequencing

This project models the main window of the OSMC host installer
(`installer/host/qt_host_installer/mainwindow.cpp`). The window is a small,
single-threaded state machine. It resolves a download mirror, then walks the
user through these pages: language and device, version, install type
("preseed"), network mode, advanced network, Wi-Fi, destination disk, license
and download. Each Qt slot handles one event. It records the user's choice in
the window or in its `NetworkSettings` object, then hides the current page and
shows the next one.

The model has three layers:

- `replace.dfy` (module `StringReplace`): `QString::replace` as the function
  `ReplaceAll`. It is used for the mirror rewrite of an online build URL.
- `wizard.dfy` (module `Wizard`): the window's state as a value
  (`WindowState`), with one function per slot. It also holds the events
  (named after the Qt signals), `Step` and `Run`, which applies a sequence of
  events.
- `mainwindow.dfy` (module `MainWindowModel`): the classes `MainWindow` and
  `NetworkSettings`.
  - Each slot is a method that changes the fields in place.
  - `setNetworkInitial` keeps its three conditionals in sequence.
  - Each method is proved to leave `State()` equal to its `Wizard` function
    applied to the old state.
- `wizard_properties.dfy` (module `WizardProperties`): lemmas about single
  slots and about every run of events from construction in which the update
  answer arrives while the language page shows.

The lemmas prove four things about every such run:

- Exactly one page is showing.
- The wizard never goes back to an earlier step. The only exception is the
  update notice, which trades places with the language page.
- Every field a slot reads was written by an earlier page.
- A device that cannot have its network preseeded never sees a network page.

Which page is showing is a set of pages (`visible`). `rotateWidget` removes the
old page from that set and adds the new one. The set `built` holds the pages
that exist: the spinner label and the update notice from the constructor, and
each page a slot has created since. Choices not made yet are `Option`s, `None`
until the slot that records them runs: the device, the online flag, the
install type, the network settings `nss` and the disk. In the source these are
a default-constructed device, members not yet assigned, and a pointer not yet
set.

The update check answers asynchronously (line 85). `showUpdate` hides the
language page and shows the notice, whichever page is showing at that moment
(lines 90-94). The class method `ShowUpdate` therefore only needs the language
page to exist. The events of the run model (`Wizard.Emitter`) let the answer
arrive only while the language page shows. What a later answer does is
recorded under "## Findings".

Three behaviours of the code that one might not expect:

- **Mirror rewrite.** One might expect `"http://download.osmc.tv/build.img"`
  with mirror `"http://mirror.example.org"` to give
  `"http://mirror.example.org/build.img"`. Line 121 replaces
  `"http://download.osmc.tv/"`, slash included, by the bare mirror, so the
  result is `"http://mirror.example.orgbuild.img"` (`MirrorRewriteExample`).
  The slash survives only when the redirect target ends in one.
- **Mirror after the reply.** Line 75 stores the redirect target as the
  mirror, whatever it is. There is no fallback to the default mirror, so a
  reply without a redirect leaves the empty string.
- **Wi-Fi key.** Line 217 reads `! keyType == WIRELESS_ENCRYPTION_NONE`,
  which C++ parses as `(!keyType) == WIRELESS_ENCRYPTION_NONE`.
  `LiteralKeyTestMeaning` gives what the test means for every value of the
  constant. With the value 0 assumed here, the key is stored exactly when the
  key type is not none.

## Model

| member | source | states |
|---|---|---|
| StringReplace.ReplaceAll | installer/host/qt_host_installer/mainwindow.cpp:121 | `QString::replace`: a string free of the needle comes back unchanged; replacing the needle by itself changes nothing; a replacement as long as the needle keeps the length |
| StringReplace.ShortHasNoOccurrence | installer/host/qt_host_installer/mainwindow.cpp:121 | a string shorter than the needle holds no occurrence of it |
| StringReplace.ReplaceLeading | installer/host/qt_host_installer/mainwindow.cpp:121 | a leading occurrence is replaced and the scan resumes after it |
| StringReplace.ReplaceLeadingOnly | installer/host/qt_host_installer/mainwindow.cpp:121 | the needle followed by a tail free of it becomes the replacement followed by the same tail |
| StringReplace.ReplaceSkipsOne | installer/host/qt_host_installer/mainwindow.cpp:121 | where the needle does not start, the scan keeps one character and goes on |
| StringReplace.ScanSkipsClean | installer/host/qt_host_installer/mainwindow.cpp:121 | a part with no match starting in it, even one running into the needle after it, passes through unchanged |
| StringReplace.ReplaceJoin | installer/host/qt_host_installer/mainwindow.cpp:121 | every occurrence is replaced: needle-free parts separated by the needle, with no match across a separator, become the same parts separated by the replacement |
| StringReplace.ReplaceExamples | installer/host/qt_host_installer/mainwindow.cpp:121 | `abxab` with `ab` replaced by `Z` gives `ZxZ`; `aaa` with `aa` replaced by `Z` gives `Za`, as the scan resumes after a match |
| Wizard.Init | installer/host/qt_host_installer/mainwindow.cpp:40-63 | the state the constructor leaves: spinner showing, update notice built, default mirror, the system locale's translation attempted; `InitSatisfiesInv` states its properties |
| Wizard.Translate | installer/host/qt_host_installer/mainwindow.cpp:248-259 | one load attempt recorded for the locale; the translator installed when the load succeeds, unchanged otherwise |
| Wizard.Rotate | installer/host/qt_host_installer/mainwindow.cpp:65-70 | the old page removed from the showing pages and the new one added |
| Wizard.ReplyFinished | installer/host/qt_host_installer/mainwindow.cpp:72-86 | replyFinished as a function of the state; `ReplyFinishedResolvesMirror` states what it does |
| Wizard.DismissUpdate | installer/host/qt_host_installer/mainwindow.cpp:88 | dismissUpdate as a function of the state; `UpdateNoticeRoundTrip` states what it does |
| Wizard.ShowUpdate | installer/host/qt_host_installer/mainwindow.cpp:90-94 | showUpdate as a function of the state; `UpdateNoticeRoundTrip` and `LateUpdateShowsTwoPages` state what it does |
| Wizard.SetLanguage | installer/host/qt_host_installer/mainwindow.cpp:96-114 | setLanguage as a function of the state; `SetLanguageTranslates` states what it does |
| Wizard.SetVersion | installer/host/qt_host_installer/mainwindow.cpp:116-136 | setVersion as a function of the state; `SetVersionOnlineRewrite` and `SetVersionOfflineKeepsImage` state what it does |
| Wizard.SetPreseed | installer/host/qt_host_installer/mainwindow.cpp:138-154 | setPreseed as a function of the state; `SetPreseedBranches` states what it does |
| Wizard.SetNetworkInitial | installer/host/qt_host_installer/mainwindow.cpp:156-186 | setNetworkInitial as a function of the state; `SetNetworkInitialBranches` states what it does |
| Wizard.SetNetworkAdvanced | installer/host/qt_host_installer/mainwindow.cpp:188-209 | setNetworkAdvanced as a function of the state; `SetNetworkAdvancedKeepsFlags` states what it does |
| Wizard.LiteralKeyTest | installer/host/qt_host_installer/mainwindow.cpp:217 | the guard as C++ parses it, `!keyType` promoted to 1 or 0; `LiteralKeyTestMeaning` gives its truth table |
| Wizard.SetWiFiConfiguration | installer/host/qt_host_installer/mainwindow.cpp:211-222 | setWiFiConfiguration as a function of the state; `SetWiFiConfigurationStoresKey` states what it does |
| Wizard.SelectNixDevice | installer/host/qt_host_installer/mainwindow.cpp:224-230 | selectNixDevice as a function of the state; `DiskThenLicense` states what it does |
| Wizard.AcceptLicense | installer/host/qt_host_installer/mainwindow.cpp:232-241 | acceptLicense as a function of the state; `DiskThenLicense` states what it does |
| Wizard.Emitter | installer/host/qt_host_installer/mainwindow.cpp:57-240 | the page that must show for a signal to reach its slot: a page's own signal while it shows, the mirror reply while the spinner shows, and the update answer while the language page shows (the timing assumption of the run lemmas) |
| Wizard.Ready | installer/host/qt_host_installer/mainwindow.cpp:138-241 | what a slot reads beyond its page: the device for setPreseed, the settings object for the two network slots, the online flag for acceptLicense, the language page for the update slots |
| Wizard.Enabled | installer/host/qt_host_installer/mainwindow.cpp:57-240 | a signal may arrive when its page shows and its slot finds what it reads |
| Wizard.Step | installer/host/qt_host_installer/mainwindow.cpp:57-240 | each signal goes to the slot its `connect` names |
| Wizard.Run | installer/host/qt_host_installer/mainwindow.cpp:57-240 | the signals applied in order; no result when one arrives while it may not; `RunKeepsInv` and `RunAppend` state its properties |
| MainWindowModel.NetworkSettings.constructor | installer/host/qt_host_installer/mainwindow.cpp:158 | a settings object with the default contents |
| MainWindowModel.NetworkSettings.SetDHCP | installer/host/qt_host_installer/mainwindow.cpp:161 | sets the DHCP flag and nothing else |
| MainWindowModel.NetworkSettings.SetWireless | installer/host/qt_host_installer/mainwindow.cpp:163-165 | sets the wireless flag and nothing else |
| MainWindowModel.NetworkSettings.SetIP | installer/host/qt_host_installer/mainwindow.cpp:192 | sets the address and nothing else |
| MainWindowModel.NetworkSettings.SetMask | installer/host/qt_host_installer/mainwindow.cpp:193 | sets the subnet mask and nothing else |
| MainWindowModel.NetworkSettings.SetGW | installer/host/qt_host_installer/mainwindow.cpp:194 | sets the gateway and nothing else |
| MainWindowModel.NetworkSettings.SetDNS1 | installer/host/qt_host_installer/mainwindow.cpp:195 | sets the primary DNS server and nothing else |
| MainWindowModel.NetworkSettings.SetDNS2 | installer/host/qt_host_installer/mainwindow.cpp:196 | sets the secondary DNS server and nothing else |
| MainWindowModel.NetworkSettings.SetWirelessSSID | installer/host/qt_host_installer/mainwindow.cpp:214 | sets the SSID and nothing else |
| MainWindowModel.NetworkSettings.SetWirelessKeyType | installer/host/qt_host_installer/mainwindow.cpp:215 | sets the key type and nothing else |
| MainWindowModel.NetworkSettings.SetWirelessKeyValue | installer/host/qt_host_installer/mainwindow.cpp:218 | sets the key value and nothing else |
| MainWindowModel.MainWindow.constructor | installer/host/qt_host_installer/mainwindow.cpp:40-63 | the window starts with the spinner showing, the update notice built and hidden, the default mirror, and one translation attempted for the system locale |
| MainWindowModel.MainWindow.RotateWidget | installer/host/qt_host_installer/mainwindow.cpp:65-70 | the old page is hidden and the new one shown; nothing else changes |
| MainWindowModel.MainWindow.Translate | installer/host/qt_host_installer/mainwindow.cpp:248-259 | one load attempt is logged for the locale; the translator is installed when the load succeeds |
| MainWindowModel.MainWindow.ReplyFinished | installer/host/qt_host_installer/mainwindow.cpp:72-86 | the new state is `Wizard.ReplyFinished` of the old one |
| MainWindowModel.MainWindow.DismissUpdate | installer/host/qt_host_installer/mainwindow.cpp:88 | the new state is `Wizard.DismissUpdate` of the old one |
| MainWindowModel.MainWindow.ShowUpdate | installer/host/qt_host_installer/mainwindow.cpp:90-94 | the new state is `Wizard.ShowUpdate` of the old one, whichever page is showing |
| MainWindowModel.MainWindow.SetLanguage | installer/host/qt_host_installer/mainwindow.cpp:96-114 | the new state is `Wizard.SetLanguage` of the old one |
| MainWindowModel.MainWindow.SetVersion | installer/host/qt_host_installer/mainwindow.cpp:116-136 | the new state is `Wizard.SetVersion` of the old one |
| MainWindowModel.MainWindow.SetPreseed | installer/host/qt_host_installer/mainwindow.cpp:138-154 | the new state is `Wizard.SetPreseed` of the old one |
| MainWindowModel.MainWindow.SetNetworkInitial | installer/host/qt_host_installer/mainwindow.cpp:156-186 | the three sequential conditionals leave the state `Wizard.SetNetworkInitial` gives (whose branches are exclusive, see `SetNetworkInitialBranches`); the settings object is newly allocated |
| MainWindowModel.MainWindow.SetNetworkAdvanced | installer/host/qt_host_installer/mainwindow.cpp:188-209 | the settings object is updated in place and the new state is `Wizard.SetNetworkAdvanced` of the old one |
| MainWindowModel.MainWindow.SetWiFiConfiguration | installer/host/qt_host_installer/mainwindow.cpp:211-222 | the literal key-type test decides the key value, and the new state is `Wizard.SetWiFiConfiguration` of the old one |
| MainWindowModel.MainWindow.SelectNixDevice | installer/host/qt_host_installer/mainwindow.cpp:224-230 | the new state is `Wizard.SelectNixDevice` of the old one |
| MainWindowModel.MainWindow.AcceptLicense | installer/host/qt_host_installer/mainwindow.cpp:232-241 | the new state is `Wizard.AcceptLicense` of the old one |
| WizardProperties.RotateShowsOnlyNew | installer/host/qt_host_installer/mainwindow.cpp:65-70 | when only the old page was showing, only the new page shows afterwards |
| WizardProperties.ReplyFinishedResolvesMirror | installer/host/qt_host_installer/mainwindow.cpp:72-86 | the mirror becomes the redirect target, whatever it is, with no fallback; the language page replaces the spinner |
| WizardProperties.UpdateNoticeRoundTrip | installer/host/qt_host_installer/mainwindow.cpp:88-94 | the notice replaces the language page, and dismissing it restores exactly the earlier state |
| WizardProperties.LateUpdateKeepsNetworkSettings | installer/host/qt_host_installer/mainwindow.cpp:90-153 | from the disk page with network settings, a late answer, its dismissal and a second pass with a device that cannot preseed its network lead back to the disk page with the old settings kept, which breaks the invariant |
| WizardProperties.LateUpdateShowsTwoPages | installer/host/qt_host_installer/mainwindow.cpp:85-94 | an update answer that arrives after the language page was left shows the notice beside the current page; dismissing it then shows the language page beside it |
| WizardProperties.SetLanguageTranslates | installer/host/qt_host_installer/mainwindow.cpp:96-114 | language and device are recorded and the version page follows; exactly one load is attempted, for that language, unless it is English, in which case none is attempted and the translator is removed |
| WizardProperties.SetVersionOnlineRewrite | installer/host/qt_host_installer/mainwindow.cpp:116-136 | an online URL made of the default prefix and a path free of the prefix becomes the resolved mirror followed by that path; the online flag is set and the preseed page follows |
| WizardProperties.SetVersionOfflineKeepsImage | installer/host/qt_host_installer/mainwindow.cpp:116-136 | a local image is stored exactly as given, whatever the mirror; the online flag is cleared and the preseed page follows |
| WizardProperties.MirrorRewriteExample | installer/host/qt_host_installer/mainwindow.cpp:121 | `http://download.osmc.tv/build.img` becomes the mirror followed directly by `build.img`, so a mirror without a trailing slash loses the slash |
| WizardProperties.SetPreseedBranches | installer/host/qt_host_installer/mainwindow.cpp:138-154 | the install type is recorded. A capable device goes to the network page, whose flag is false exactly for NFS. Any other device goes to the disk page with no network settings built |
| WizardProperties.SetNetworkInitialBranches | installer/host/qt_host_installer/mainwindow.cpp:156-186 | fresh settings have DHCP off exactly when advanced is chosen and wireless equal to the choice; for every pair of choices exactly one of advanced, Wi-Fi or disk follows |
| WizardProperties.SetNetworkAdvancedKeepsFlags | installer/host/qt_host_installer/mainwindow.cpp:188-209 | the five addresses are stored; DHCP, wireless and the Wi-Fi fields are unchanged; the Wi-Fi page follows exactly when wireless is set, the disk page otherwise |
| WizardProperties.LiteralKeyTestMeaning | installer/host/qt_host_installer/mainwindow.cpp:217 | `(!keyType) == none` holds exactly for a non-zero key type when none is 0, for a zero key type when none is 1, and never otherwise |
| WizardProperties.SetWiFiConfigurationStoresKey | installer/host/qt_host_installer/mainwindow.cpp:211-222 | SSID and key type are stored; the key value is stored exactly when the key type is not none, otherwise the earlier value stays; the disk page follows |
| WizardProperties.DiskThenLicense | installer/host/qt_host_installer/mainwindow.cpp:224-241 | the disk is recorded and the license follows; accepting it shows the download page, built with the build URL when online and an empty URL otherwise |
| WizardProperties.InvOfSingle | installer/host/qt_host_installer/mainwindow.cpp:65-70 | a state showing one built page, with that page's fields recorded, satisfies the window invariant |
| WizardProperties.InitSatisfiesInv | installer/host/qt_host_installer/mainwindow.cpp:40-63 | the constructed window satisfies the invariant, shows only the spinner, and has attempted exactly the system locale's translation |
| WizardProperties.StepShowsNextPage | installer/host/qt_host_installer/mainwindow.cpp:72-241 | from the page that emits an event, the slot shows exactly the page the transition table `NextPage` names |
| WizardProperties.NextPageMovesForward | installer/host/qt_host_installer/mainwindow.cpp:72-241 | every transition moves to a later step, except the update notice and language page, which trade places |
| WizardProperties.ReplyFinishedKeepsInv | installer/host/qt_host_installer/mainwindow.cpp:72-86 | replyFinished from the spinner keeps the window invariant |
| WizardProperties.UpdateNoticeKeepsInv | installer/host/qt_host_installer/mainwindow.cpp:88-94 | showing and dismissing the update notice from its page keep the invariant |
| WizardProperties.SetLanguageKeepsInv | installer/host/qt_host_installer/mainwindow.cpp:96-114 | setLanguage from the language page keeps the invariant |
| WizardProperties.SetVersionKeepsInv | installer/host/qt_host_installer/mainwindow.cpp:116-136 | setVersion from the version page keeps the invariant |
| WizardProperties.SetPreseedKeepsInv | installer/host/qt_host_installer/mainwindow.cpp:138-154 | setPreseed keeps the invariant, including that network settings exist only for a capable device |
| WizardProperties.SetNetworkInitialKeepsInv | installer/host/qt_host_installer/mainwindow.cpp:156-186 | setNetworkInitial keeps the invariant in each of its three branches |
| WizardProperties.SetNetworkAdvancedKeepsInv | installer/host/qt_host_installer/mainwindow.cpp:188-209 | setNetworkAdvanced keeps the invariant |
| WizardProperties.SetWiFiConfigurationKeepsInv | installer/host/qt_host_installer/mainwindow.cpp:211-222 | setWiFiConfiguration keeps the invariant |
| WizardProperties.SelectNixDeviceKeepsInv | installer/host/qt_host_installer/mainwindow.cpp:224-230 | selectNixDevice from the disk page keeps the invariant |
| WizardProperties.AcceptLicenseKeepsInv | installer/host/qt_host_installer/mainwindow.cpp:232-241 | acceptLicense from the license page keeps the invariant |
| WizardProperties.StepKeepsInv | installer/host/qt_host_installer/mainwindow.cpp:72-241 | every event that may arrive keeps the invariant: one page showing, built, with every field it reads already written |
| WizardProperties.ShowingIsReady | installer/host/qt_host_installer/mainwindow.cpp:138-241 | under the invariant, the page showing is all an event needs: the device, the settings or the online flag that its slot reads are present |
| WizardProperties.RunKeepsInv | installer/host/qt_host_installer/mainwindow.cpp:72-241 | every run `Run` admits (the update answer only while the language page shows) keeps the invariant and never shows a page of an earlier step |
| WizardProperties.OnePageShows | installer/host/qt_host_installer/mainwindow.cpp:65-70 | in every run from construction in which the update answer arrives while the language page shows, exactly one page shows |
| WizardProperties.IncapableDeviceSkipsNetwork | installer/host/qt_host_installer/mainwindow.cpp:141-153 | in every run from construction in which the update answer arrives while the language page shows, a device that cannot preseed its network never shows a network page and never gets network settings |
| WizardProperties.DownloadHasEveryChoice | installer/host/qt_host_installer/mainwindow.cpp:232-241 | when the download page shows, device, build, install type and disk have been chosen, and the page got the build URL exactly when online |
| WizardProperties.RunFirst | installer/host/qt_host_installer/mainwindow.cpp:72-241 | a run continues from the state the first event's slot leaves |
| WizardProperties.RunAppend | installer/host/qt_host_installer/mainwindow.cpp:72-241 | running two event sequences in turn is running their concatenation |
| WizardProperties.DownloadReachable | installer/host/qt_host_installer/mainwindow.cpp:72-241 | for every device, language, local image, install type and disk, the download page is reachable with an empty download URL: through wired DHCP for a capable device, directly from the preseed page otherwise |

## Left out

- Widgets are not modelled: construction, layout, `setFixedSize`, the spinner
  animation, `move(WIDGET_START)` and `retranslateUi`. Showing and hiding are
  reduced to the set of visible pages. Pages are identified by kind, so the
  fact that each slot allocates a fresh page object is recorded only in
  `built`.
- The HTTP request for the mirror and `UpdateNotification::isUpdateAvailable`
  are network I/O and are not modelled. The reply enters only as its
  redirect-target string; the update check enters only as the arrival of its
  signal.
- Loading a translation file is not modelled. `QTranslator::load` is file I/O
  through Qt, so its outcome is a boolean parameter. Qt's clearing of an
  installed translator's contents on a failed load is not modelled.
  `tr("English")` is taken as the literal `"English"`, although Qt translates
  it through the installed translator.
- Logging (`utils::writeLog`) is left out because it does not affect control
  flow.
- The device catalog (`utils::buildDeviceList`, `SupportedDevice`) is not part
  of this model. A device is a record with a name, a short name and the
  "allows preseeding network" flag.
- `NixDiskDevice` is an opaque handle, modelled as `Disk`.
- `downloadprogress.h` is only a declaration. Downloading and writing the image
  are I/O and are not modelled; only the URL the download page is built with
  is recorded. `completeDownload` has an empty body and is not modelled.
- Signal/slot `connect` wiring is reduced to calling the slot. This includes
  the repeated `connect` in `showUpdate`.
- URLs are plain strings. Any normalisation `QUrl` applies when it parses or
  prints a URL is not modelled.
- The constants in `utils.h` and the `NetworkSettings` constructor are not part
  of this model. The model assumes `WIRELESS_ENCRYPTION_NONE` = 0 (the meaning
  of the key test for other values is in `LiteralKeyTestMeaning`) and
  `INSTALL_NFS` = 3; only equality with `INSTALL_NFS` is ever used. Fresh
  settings are assumed to hold empty strings, key type 0, and DHCP and wireless
  off. Every path overwrites DHCP and wireless before they are read.
- `nss` is modelled as owned by the window alone. Nothing in this file shares
  that pointer, so aliasing through another holder is not modelled.
- WizardProperties.OnePageShows: holds only for runs in which the update
  answer arrives while the language page shows. A later answer leaves two
  pages showing (see "## Findings").
- WizardProperties.IncapableDeviceSkipsNetwork: holds only for runs in which
  the update answer arrives while the language page shows. After a later answer
  the network settings of an earlier pass can stay (see "## Findings").
- WizardProperties.RunKeepsInv: `Run` admits the update answer only while the
  language page shows, so the invariant is not claimed for the other timing.
  The class method `ShowUpdate`, `LateUpdateShowsTwoPages` and
  `LateUpdateKeepsNetworkSettings` cover it.

## Findings

| source | as written | input that shows it | evidently intended | confidence | as-written member | corrected member |
|---|---|---|---|---|---|---|
| installer/host/qt_host_installer/mainwindow.cpp:85-94 | the update check answers asynchronously and `showUpdate` hides the language page whatever is showing | the answer arrives after the user has moved on, say to the version page: the notice and the version page both show, and dismissing the notice shows the language page beside it | the notice appears over the language page only, and exactly one page shows | medium, not executed | WizardProperties.LateUpdateShowsTwoPages | WizardProperties.OnePageShows |
| installer/host/qt_host_installer/mainwindow.cpp:138-153 | after a late answer is dismissed the language page can be used again; a second pass with a device that cannot preseed its network goes from the preseed page to the disk page and keeps `nss` | a capable device with wired DHCP reaches the disk page; the answer arrives; the user dismisses it and picks a device that cannot preseed its network, a local image and any install type | a device that cannot preseed its network never carries network settings | medium, not executed | WizardProperties.LateUpdateKeepsNetworkSettings | WizardProperties.IncapableDeviceSkipsNetwork |
