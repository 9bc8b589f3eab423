/** What the slots of the installer's main window guarantee, one slot at a time
    and over every sequence of events that can reach the window. */
module WizardProperties {
  import opened StringReplace
  import opened Wizard

  // ---------------------------------------------------------------------------
  // One slot at a time
  // ---------------------------------------------------------------------------

  /** rotateWidget leaves exactly the new page showing when exactly the old one
      was. */
  lemma RotateShowsOnlyNew(oldPage: Page, newPage: Page)
    ensures Rotate({oldPage}, oldPage, newPage) == {newPage}
  {
  }

  /** replyFinished takes the redirect target as the mirror, whatever it is (no
      fallback to the default), and swaps the spinner for the language page. */
  lemma ReplyFinishedResolvesMirror(w: WindowState, redirectTarget: string)
    requires w.visible == {Spinner}
    ensures ReplyFinished(w, redirectTarget).mirrorUrl == redirectTarget
    ensures ReplyFinished(w, redirectTarget).visible == {Lang}
    ensures Lang in ReplyFinished(w, redirectTarget).built
  {
  }

  /** The update notice replaces the language page, and dismissing it brings back
      exactly the state before it was shown. */
  lemma UpdateNoticeRoundTrip(w: WindowState)
    requires Lang in w.built && w.visible == {Lang}
    ensures ShowUpdate(w).visible == {Update}
    ensures DismissUpdate(ShowUpdate(w)) == w
  {
  }

  /** The update check answers asynchronously, and showUpdate hides the language
      page whatever is showing: an answer that comes after the user has left the
      language page leaves two pages showing, and dismissing it then shows the
      language page beside the current one. */
  lemma LateUpdateShowsTwoPages(w: WindowState, p: Page)
    requires Lang in w.built && w.visible == {p} && p != Lang && p != Update
    ensures ShowUpdate(w).visible == {p, Update}
    ensures DismissUpdate(ShowUpdate(w)).visible == {p, Lang}
  {
  }

  /** The same late answer, arriving once a capable device has reached the disk
      page with network settings: dismissing it and choosing again on the
      language page with a device that does not allow network preseeding leads
      straight back to the disk page, and the settings built for the first
      device stay. */
  lemma LateUpdateKeepsNetworkSettings(w: WindowState, language: string, device: Device,
                                       image: string, installType: int)
    requires Inv(w) && Lang in w.built && w.visible == {DiskSelect} && w.nss.Some?
    requires !device.allowsPreseedingNetwork
    ensures var r := SetPreseed(SetVersion(SetLanguage(DismissUpdate(ShowUpdate(w)), language, device, false),
                                           false, image), installType);
      && r.visible == {DiskSelect}
      && r.device == Some(device) && r.nss == w.nss
      && !Inv(r)
  {
    var r := SetPreseed(SetVersion(SetLanguage(DismissUpdate(ShowUpdate(w)), language, device, false),
                                   false, image), installType);
    assert Recorded(w, DiskSelect);
    assert DismissUpdate(ShowUpdate(w)).visible == {DiskSelect, Lang};
    assert r.visible == {DiskSelect};
    assert !Capable(r);
  }

  /** setLanguage records language and device and moves to the version page; it
      attempts exactly one translation, for that language, unless the language is
      English, for which it attempts none and removes the translator. */
  lemma SetLanguageTranslates(w: WindowState, language: string, device: Device, loads: bool)
    requires w.visible == {Lang}
    ensures var r := SetLanguage(w, language, device, loads);
      && r.language == language && r.device == Some(device)
      && r.visible == {Version}
      && (language != EnglishLabel ==>
            (r.translations == w.translations + [language]
             && r.translatorInstalled == (w.translatorInstalled || loads)))
      && (language == EnglishLabel ==> r.translations == w.translations && !r.translatorInstalled)
  {
  }

  /** setVersion stores the online flag and moves to the preseed page; an online
      build URL that starts with the default mirror prefix, and holds it nowhere
      else, gets the resolved mirror in place of that prefix, slash included. */
  lemma SetVersionOnlineRewrite(w: WindowState, path: string)
    requires w.visible == {Version}
    requires !Occurs(DefaultMirrorPrefix, path)
    ensures var r := SetVersion(w, true, DefaultMirrorPrefix + path);
      r.image == w.mirrorUrl + path && r.isOnline == Some(true) && r.visible == {Preseed}
  {
    ReplaceLeadingOnly(DefaultMirrorPrefix, path, w.mirrorUrl);
  }

  /** setVersion keeps a local image exactly as given, whatever the mirror. */
  lemma SetVersionOfflineKeepsImage(w: WindowState, image: string)
    requires w.visible == {Version}
    ensures var r := SetVersion(w, false, image);
      r.image == image && r.isOnline == Some(false) && r.visible == {Preseed}
  {
  }

  /** The rewrite of the build URL as written: the prefix carries a slash and the
      mirror replaces it bare, so the file name follows the mirror directly. With
      the mirror "http://mirror.example.org" the result is therefore not
      "http://mirror.example.org/build.img"; the slash survives only when the
      redirect target ends in one. */
  lemma MirrorRewriteExample(mirror: string)
    ensures ReplaceAll("http://download.osmc.tv/build.img", DefaultMirrorPrefix, mirror) == mirror + "build.img"
    ensures mirror == "http://mirror.example.org" ==>
      ReplaceAll("http://download.osmc.tv/build.img", DefaultMirrorPrefix, mirror) != "http://mirror.example.org/build.img"
  {
    var path := "build.img";
    assert DefaultMirrorPrefix + path == "http://download.osmc.tv/build.img";
    ShortHasNoOccurrence(DefaultMirrorPrefix, path);
    ReplaceLeadingOnly(DefaultMirrorPrefix, path, mirror);
    if mirror == "http://mirror.example.org" {
      assert |mirror + path| != |"http://mirror.example.org/build.img"|;
    }
  }

  /** setPreseed records the install type. A device that allows network
      preseeding goes on to the network page, built with a flag that is false
      exactly for an NFS install; any other device skips every network page and
      goes to the disk page. */
  lemma SetPreseedBranches(w: WindowState, installType: int)
    requires w.visible == {Preseed} && w.device.Some?
    ensures var r := SetPreseed(w, installType);
      && r.installType == Some(installType)
      && (w.device.value.allowsPreseedingNetwork ==>
            r.visible == {Network} && (r.networkPageFlag <==> installType != InstallNfs))
      && (!w.device.value.allowsPreseedingNetwork ==> r.visible == {DiskSelect} && r.nss == w.nss)
  {
  }

  /** setNetworkInitial builds fresh settings with DHCP off exactly when the
      advanced page was asked for and wireless equal to the user's choice, and for
      every pair of choices exactly one of the three next pages shows. */
  lemma SetNetworkInitialBranches(w: WindowState, useWireless: bool, advanced: bool)
    requires w.visible == {Network}
    ensures var r := SetNetworkInitial(w, useWireless, advanced);
      && r.nss == Some(DefaultSettings().(dhcp := !advanced, wireless := useWireless))
      && (r.visible == {Advanced} <==> advanced)
      && (r.visible == {WiFi} <==> !advanced && useWireless)
      && (r.visible == {DiskSelect} <==> !advanced && !useWireless)
      && (r.visible == {Advanced} || r.visible == {WiFi} || r.visible == {DiskSelect})
  {
  }

  /** setNetworkAdvanced stores the static addresses, leaves DHCP, wireless and
      the wireless fields as they were, and goes to the Wi-Fi page exactly when
      the stored settings ask for wireless. */
  lemma SetNetworkAdvancedKeepsFlags(w: WindowState, ip: string, mask: string, gw: string, dns1: string, dns2: string)
    requires w.visible == {Advanced} && w.nss.Some?
    ensures var r := SetNetworkAdvanced(w, ip, mask, gw, dns1, dns2);
      && r.nss.Some?
      && r.nss.value.ip == ip && r.nss.value.mask == mask && r.nss.value.gw == gw
      && r.nss.value.dns1 == dns1 && r.nss.value.dns2 == dns2
      && r.nss.value.dhcp == w.nss.value.dhcp && r.nss.value.wireless == w.nss.value.wireless
      && r.nss.value.ssid == w.nss.value.ssid && r.nss.value.keyType == w.nss.value.keyType
      && r.nss.value.keyValue == w.nss.value.keyValue
      && (r.visible == {WiFi} <==> w.nss.value.wireless)
      && (r.visible == {DiskSelect} <==> !w.nss.value.wireless)
  {
  }

  /** The guard on the key value, read as C++ reads it: it holds for a non-zero key
      type when the "none" constant is 0, for a zero key type when it is 1, and
      never otherwise. */
  lemma LiteralKeyTestMeaning(keyType: int, none: int)
    ensures LiteralKeyTest(keyType, none) <==> (none == 0 && keyType != 0) || (none == 1 && keyType == 0)
  {
  }

  /** setWiFiConfiguration stores SSID and key type and moves to the disk page; with
      no encryption being 0, it stores the key value exactly when the key type is
      not "none", and otherwise keeps the value the settings held. */
  lemma SetWiFiConfigurationStoresKey(w: WindowState, ssid: string, keyType: int, keyValue: string)
    requires w.visible == {WiFi} && w.nss.Some?
    ensures var r := SetWiFiConfiguration(w, ssid, keyType, keyValue);
      && r.nss.Some? && r.nss.value.ssid == ssid && r.nss.value.keyType == keyType
      && r.nss.value.keyValue == (if keyType != WirelessEncryptionNone then keyValue else w.nss.value.keyValue)
      && r.nss.value.dhcp == w.nss.value.dhcp && r.nss.value.wireless == w.nss.value.wireless
      && r.visible == {DiskSelect}
  {
    LiteralKeyTestMeaning(keyType, WirelessEncryptionNone);
  }

  /** selectNixDevice records the disk and shows the license; acceptLicense then
      shows the download page, built with the stored build URL when online and an
      empty URL when not. */
  lemma DiskThenLicense(w: WindowState, disk: Disk)
    requires w.visible == {DiskSelect} && w.isOnline.Some?
    ensures var r := SelectNixDevice(w, disk);
      && r.disk == Some(disk) && r.visible == {License}
      && AcceptLicense(r).visible == {Download}
      && AcceptLicense(r).downloadUrl == (if w.isOnline.value then w.image else "")
  {
  }

  // ---------------------------------------------------------------------------
  // Every reachable state
  // ---------------------------------------------------------------------------

  /** A step in the wizard's order; the update notice stands beside the language
      page. */
  function Stage(p: Page): nat {
    match p
    case Spinner => 0
    case Lang => 1
    case Update => 1
    case Version => 2
    case Preseed => 3
    case Network => 4
    case Advanced => 5
    case WiFi => 6
    case DiskSelect => 7
    case License => 8
    case Download => 9
  }

  /** Device, build and install type have been chosen. */
  predicate Chosen(w: WindowState) {
    w.device.Some? && w.isOnline.Some? && w.installType.Some?
  }

  predicate Capable(w: WindowState) {
    w.device.Some? && w.device.value.allowsPreseedingNetwork
  }

  /** What has been recorded by the time page `p` shows: every field a slot reads
      has been written by an earlier page, and nothing is written early. */
  predicate Recorded(w: WindowState, p: Page) {
    match p
    case Spinner => w.nss.None? && w.device.None?
    case Lang => w.nss.None?
    case Update => w.nss.None? && Lang in w.built
    case Version => w.nss.None? && w.device.Some?
    case Preseed => w.nss.None? && w.device.Some? && w.isOnline.Some?
    case Network => Chosen(w) && Capable(w) && (w.networkPageFlag <==> w.installType.value != InstallNfs)
    case Advanced => Chosen(w) && Capable(w) && w.nss.Some? && !w.nss.value.dhcp
    case WiFi => Chosen(w) && Capable(w) && w.nss.Some? && w.nss.value.wireless
    case DiskSelect => Chosen(w)
    case License => Chosen(w) && w.disk.Some?
    case Download =>
      Chosen(w) && w.disk.Some? && w.downloadUrl == (if w.isOnline.value then w.image else "")
  }

  /** The invariant of the window: exactly one page shows, it has been built, the
      constructor's pages exist, the fields are recorded in the wizard's order,
      and network settings exist only for a device that allows preseeding them. */
  predicate Inv(w: WindowState) {
    && |w.visible| == 1
    && w.visible <= w.built
    && Spinner in w.built && Update in w.built
    && (forall p :: p in w.visible ==> Recorded(w, p))
    && (w.nss.Some? ==> Capable(w))
  }

  lemma SingletonOf(s: set<Page>, x: Page)
    requires |s| == 1 && x in s
    ensures s == {x}
  {
    assert |s - {x}| == 0;
  }

  /** A state showing one built page, recorded as that page needs, satisfies the
      invariant. */
  lemma InvOfSingle(r: WindowState, q: Page)
    requires r.visible == {q} && q in r.built && Spinner in r.built && Update in r.built
    requires Recorded(r, q) && (r.nss.Some? ==> Capable(r))
    ensures Inv(r)
  {
  }

  lemma InitSatisfiesInv(systemLocale: string, loads: bool)
    ensures Inv(Init(systemLocale, loads))
    ensures Init(systemLocale, loads).visible == {Spinner}
    ensures Init(systemLocale, loads).translations == [systemLocale]
  {
    InvOfSingle(Init(systemLocale, loads), Spinner);
  }

  /** The invariant after a slot that leaves page `q` showing, given what the
      slot recorded. */
  lemma StepTo(w: WindowState, r: WindowState, q: Page)
    requires Inv(w)
    requires r.visible == {q} && r.built == w.built + {q}
    requires Recorded(r, q) && (r.nss.Some? ==> Capable(r))
    ensures Inv(r)
  {
    InvOfSingle(r, q);
  }

  /** The wizard's transition table: the page an event leads to. */
  function NextPage(w: WindowState, e: Event): Page
    requires Ready(w, e)
  {
    match e
    case Finished(_) => Lang
    case HasUpdate => Update
    case IgnoreUpdate => Lang
    case LanguageSelected(_, _, _) => Version
    case VersionSelected(_, _) => Preseed
    case PreseedSelected(_) => if w.device.value.allowsPreseedingNetwork then Network else DiskSelect
    case NetworkOptionsInit(useWireless, advanced) =>
      if advanced then Advanced else if useWireless then WiFi else DiskSelect
    case AdvancedNetworkSelected(_, _, _, _, _) => if w.nss.value.wireless then WiFi else DiskSelect
    case WifiNetworkConfigured(_, _, _) => DiskSelect
    case NixDeviceSelected(_) => License
    case LicenseAccepted => Download
  }

  /** Every transition moves one stage or more forward, except that the update
      notice and the language page trade places. */
  lemma NextPageMovesForward(w: WindowState, e: Event)
    requires Ready(w, e)
    ensures e.HasUpdate? || e.IgnoreUpdate? ==> Stage(NextPage(w, e)) == Stage(Emitter(e))
    ensures !e.HasUpdate? && !e.IgnoreUpdate? ==> Stage(NextPage(w, e)) > Stage(Emitter(e))
  {
  }

  /** When only the page an event comes from shows, the slot it reaches shows
      exactly the page the transition table names. */
  lemma StepShowsNextPage(w: WindowState, e: Event)
    requires Ready(w, e) && w.visible == {Emitter(e)}
    ensures Step(w, e).visible == {NextPage(w, e)}
  {
  }

  // The invariant across each slot, from the page that emits its signal.

  lemma ReplyFinishedKeepsInv(w: WindowState, t: string)
    requires Inv(w) && w.visible == {Spinner}
    ensures Inv(ReplyFinished(w, t))
  {
    assert Recorded(w, Spinner);
    StepTo(w, ReplyFinished(w, t), Lang);
  }

  lemma UpdateNoticeKeepsInv(w: WindowState)
    requires Inv(w) && Lang in w.built
    ensures w.visible == {Lang} ==> Inv(ShowUpdate(w))
    ensures w.visible == {Update} ==> Inv(DismissUpdate(w))
  {
    if w.visible == {Lang} {
      assert Recorded(w, Lang);
      InvOfSingle(ShowUpdate(w), Update);
    }
    if w.visible == {Update} {
      assert Recorded(w, Update);
      InvOfSingle(DismissUpdate(w), Lang);
    }
  }

  lemma SetLanguageKeepsInv(w: WindowState, l: string, d: Device, b: bool)
    requires Inv(w) && w.visible == {Lang}
    ensures Inv(SetLanguage(w, l, d, b))
  {
    assert Recorded(w, Lang);
    StepTo(w, SetLanguage(w, l, d, b), Version);
  }

  lemma SetVersionKeepsInv(w: WindowState, o: bool, i: string)
    requires Inv(w) && w.visible == {Version}
    ensures Inv(SetVersion(w, o, i))
  {
    assert Recorded(w, Version);
    StepTo(w, SetVersion(w, o, i), Preseed);
  }

  lemma SetPreseedKeepsInv(w: WindowState, t: int)
    requires Inv(w) && w.visible == {Preseed} && w.device.Some?
    ensures Inv(SetPreseed(w, t))
  {
    assert Recorded(w, Preseed);
    if w.device.value.allowsPreseedingNetwork {
      StepTo(w, SetPreseed(w, t), Network);
    } else {
      StepTo(w, SetPreseed(w, t), DiskSelect);
    }
  }

  lemma SetNetworkInitialKeepsInv(w: WindowState, useWireless: bool, advanced: bool)
    requires Inv(w) && w.visible == {Network}
    ensures Inv(SetNetworkInitial(w, useWireless, advanced))
  {
    assert Recorded(w, Network);
    var r := SetNetworkInitial(w, useWireless, advanced);
    if advanced {
      StepTo(w, r, Advanced);
    } else if useWireless {
      StepTo(w, r, WiFi);
    } else {
      StepTo(w, r, DiskSelect);
    }
  }

  lemma SetNetworkAdvancedKeepsInv(w: WindowState, ip: string, mask: string, gw: string, dns1: string, dns2: string)
    requires Inv(w) && w.visible == {Advanced} && w.nss.Some?
    ensures Inv(SetNetworkAdvanced(w, ip, mask, gw, dns1, dns2))
  {
    assert Recorded(w, Advanced);
    var r := SetNetworkAdvanced(w, ip, mask, gw, dns1, dns2);
    if w.nss.value.wireless {
      StepTo(w, r, WiFi);
    } else {
      StepTo(w, r, DiskSelect);
    }
  }

  lemma SetWiFiConfigurationKeepsInv(w: WindowState, ssid: string, k: int, v: string)
    requires Inv(w) && w.visible == {WiFi} && w.nss.Some?
    ensures Inv(SetWiFiConfiguration(w, ssid, k, v))
  {
    assert Recorded(w, WiFi);
    StepTo(w, SetWiFiConfiguration(w, ssid, k, v), DiskSelect);
  }

  lemma SelectNixDeviceKeepsInv(w: WindowState, d: Disk)
    requires Inv(w) && w.visible == {DiskSelect}
    ensures Inv(SelectNixDevice(w, d))
  {
    assert Recorded(w, DiskSelect);
    StepTo(w, SelectNixDevice(w, d), License);
  }

  lemma AcceptLicenseKeepsInv(w: WindowState)
    requires Inv(w) && w.visible == {License}
    ensures Inv(AcceptLicense(w))
  {
    assert Recorded(w, License);
    StepTo(w, AcceptLicense(w), Download);
  }

  /** An event that may arrive keeps the invariant. */
  lemma StepKeepsInv(w: WindowState, e: Event)
    requires Inv(w) && Enabled(w, e)
    ensures Inv(Step(w, e))
  {
    SingletonOf(w.visible, Emitter(e));
    match e
    case Finished(t) => ReplyFinishedKeepsInv(w, t);
    case HasUpdate => UpdateNoticeKeepsInv(w);
    case IgnoreUpdate => UpdateNoticeKeepsInv(w);
    case LanguageSelected(l, d, b) => SetLanguageKeepsInv(w, l, d, b);
    case VersionSelected(o, i) => SetVersionKeepsInv(w, o, i);
    case PreseedSelected(t) => SetPreseedKeepsInv(w, t);
    case NetworkOptionsInit(useWireless, advanced) => SetNetworkInitialKeepsInv(w, useWireless, advanced);
    case AdvancedNetworkSelected(ip, mask, gw, dns1, dns2) => SetNetworkAdvancedKeepsInv(w, ip, mask, gw, dns1, dns2);
    case WifiNetworkConfigured(ssid, k, v) => SetWiFiConfigurationKeepsInv(w, ssid, k, v);
    case NixDeviceSelected(d) => SelectNixDeviceKeepsInv(w, d);
    case LicenseAccepted => AcceptLicenseKeepsInv(w);
  }

  /** Under the invariant, an event whose page shows may arrive: the fields its
      slot reads have been written. */
  lemma ShowingIsReady(w: WindowState, e: Event)
    requires Inv(w) && Emitter(e) in w.visible
    ensures Enabled(w, e)
  {
    assert Recorded(w, Emitter(e));
  }

  /** Every run of events that may arrive keeps the invariant, and never goes back
      to an earlier stage of the wizard. */
  lemma {:induction false} RunKeepsInv(w: WindowState, events: seq<Event>)
    requires Inv(w) && Run(w, events).Some?
    ensures Inv(Run(w, events).value)
    ensures forall p, q :: p in w.visible && q in Run(w, events).value.visible ==> Stage(p) <= Stage(q)
    decreases |events|
  {
    if events != [] {
      var e := events[0];
      SingletonOf(w.visible, Emitter(e));
      StepKeepsInv(w, e);
      StepShowsNextPage(w, e);
      NextPageMovesForward(w, e);
      RunKeepsInv(Step(w, e), events[1..]);
      assert Run(w, events) == Run(Step(w, e), events[1..]);
      forall p, q | p in w.visible && q in Run(w, events).value.visible
        ensures Stage(p) <= Stage(q)
      {
        assert NextPage(w, e) in Step(w, e).visible;
      }
    } else {
      var x :| x in w.visible;
      SingletonOf(w.visible, x);
    }
  }

  /** From the moment the window is constructed, exactly one page shows. */
  lemma OnePageShows(systemLocale: string, loads: bool, events: seq<Event>)
    requires Run(Init(systemLocale, loads), events).Some?
    ensures |Run(Init(systemLocale, loads), events).value.visible| == 1
  {
    InitSatisfiesInv(systemLocale, loads);
    RunKeepsInv(Init(systemLocale, loads), events);
  }

  /** A device that does not allow network preseeding never sees a network page,
      and no network settings are ever built for it. */
  lemma IncapableDeviceSkipsNetwork(systemLocale: string, loads: bool, events: seq<Event>)
    requires Run(Init(systemLocale, loads), events).Some?
    requires var w := Run(Init(systemLocale, loads), events).value;
      w.device.Some? && !w.device.value.allowsPreseedingNetwork
    ensures var w := Run(Init(systemLocale, loads), events).value;
      && w.nss.None?
      && Network !in w.visible && Advanced !in w.visible && WiFi !in w.visible
  {
    InitSatisfiesInv(systemLocale, loads);
    RunKeepsInv(Init(systemLocale, loads), events);
    var w := Run(Init(systemLocale, loads), events).value;
    assert forall p :: p in w.visible ==> Recorded(w, p);
  }

  /** When the download page shows, every choice has been made, and the page was
      given the build URL exactly when the build is online. */
  lemma DownloadHasEveryChoice(systemLocale: string, loads: bool, events: seq<Event>)
    requires Run(Init(systemLocale, loads), events).Some?
    requires Download in Run(Init(systemLocale, loads), events).value.visible
    ensures var w := Run(Init(systemLocale, loads), events).value;
      && w.device.Some? && w.isOnline.Some? && w.installType.Some? && w.disk.Some?
      && w.downloadUrl == (if w.isOnline.value then w.image else "")
  {
    InitSatisfiesInv(systemLocale, loads);
    RunKeepsInv(Init(systemLocale, loads), events);
    var w := Run(Init(systemLocale, loads), events).value;
    assert Recorded(w, Download);
  }

  /** A run that starts with an event that may arrive continues from the state
      that event's slot leaves. */
  lemma RunFirst(w: WindowState, e: Event, rest: seq<Event>)
    requires Enabled(w, e)
    ensures Run(w, [e] + rest) == Run(Step(w, e), rest)
  {
    assert ([e] + rest)[1..] == rest;
  }

  /** Running two sequences of events one after the other is running their
      concatenation. */
  lemma {:induction false} RunAppend(w: WindowState, first: seq<Event>, second: seq<Event>)
    ensures Run(w, first + second) == if Run(w, first).Some? then Run(Run(w, first).value, second) else None
    decreases |first|
  {
    if first == [] {
      assert first + second == second;
    } else if Enabled(w, first[0]) {
      assert (first + second)[1..] == first[1..] + second;
      RunAppend(Step(w, first[0]), first[1..], second);
    }
  }

  /** Whatever the device and the choices, the download page can be reached: with
      a wired DHCP network when the device allows preseeding it, straight from the
      preseed page otherwise. */
  lemma DownloadReachable(locale: string, loads: bool, mirror: string, language: string,
                          device: Device, image: string, installType: int, disk: Disk)
    ensures var network := if device.allowsPreseedingNetwork then [NetworkOptionsInit(false, false)] else [];
      var events := [Finished(mirror), LanguageSelected(language, device, loads), VersionSelected(false, image),
                     PreseedSelected(installType)] + network + [NixDeviceSelected(disk), LicenseAccepted];
      && Run(Init(locale, loads), events).Some?
      && Run(Init(locale, loads), events).value.visible == {Download}
      && Run(Init(locale, loads), events).value.downloadUrl == ""
  {
    var front := [Finished(mirror), LanguageSelected(language, device, loads), VersionSelected(false, image),
                  PreseedSelected(installType)];
    var network := if device.allowsPreseedingNetwork then [NetworkOptionsInit(false, false)] else [];
    var tail := [NixDeviceSelected(disk), LicenseAccepted];
    var w4 := FrontReachesPreseedChoice(locale, loads, mirror, language, device, image, installType);
    var w5 := if device.allowsPreseedingNetwork then SetNetworkInitial(w4, false, false) else w4;
    if device.allowsPreseedingNetwork {
      RunFirst(w4, NetworkOptionsInit(false, false), []);
    }
    assert Run(w4, network) == Some(w5);
    var w7 := TailReachesDownload(w5, disk);
    RunAppend(Init(locale, loads), front, network);
    RunAppend(Init(locale, loads), front + network, tail);
  }

  /** The first four events, from the window's construction to the choice of an
      install type. */
  lemma FrontReachesPreseedChoice(locale: string, loads: bool, mirror: string, language: string,
                                  device: Device, image: string, installType: int) returns (w: WindowState)
    ensures Run(Init(locale, loads), [Finished(mirror), LanguageSelected(language, device, loads),
                                      VersionSelected(false, image), PreseedSelected(installType)]) == Some(w)
    ensures w.isOnline == Some(false) && w.device == Some(device)
    ensures w.visible == {if device.allowsPreseedingNetwork then Network else DiskSelect}
  {
    var w0 := Init(locale, loads);
    var w1 := ReplyFinished(w0, mirror);
    var w2 := SetLanguage(w1, language, device, loads);
    var w3 := SetVersion(w2, false, image);
    w := SetPreseed(w3, installType);
    RunFirst(w3, PreseedSelected(installType), []);
    RunFirst(w2, VersionSelected(false, image), [PreseedSelected(installType)]);
    RunFirst(w1, LanguageSelected(language, device, loads), [VersionSelected(false, image), PreseedSelected(installType)]);
    RunFirst(w0, Finished(mirror), [LanguageSelected(language, device, loads), VersionSelected(false, image), PreseedSelected(installType)]);
  }

  /** From the disk page, choosing a disk and accepting the license reaches the
      download page. */
  lemma TailReachesDownload(w: WindowState, disk: Disk) returns (r: WindowState)
    requires w.visible == {DiskSelect} && w.isOnline.Some?
    ensures Run(w, [NixDeviceSelected(disk), LicenseAccepted]) == Some(r)
    ensures r.visible == {Download} && r.downloadUrl == (if w.isOnline.value then w.image else "")
  {
    var w1 := SelectNixDevice(w, disk);
    r := AcceptLicense(w1);
    RunFirst(w1, LicenseAccepted, []);
    RunFirst(w, NixDeviceSelected(disk), [LicenseAccepted]);
  }
}
