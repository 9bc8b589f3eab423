/** MainWindow of installer/host/qt_host_installer/mainwindow.cpp as an object:
    its fields, the network settings object it builds, and one method per slot.
    Each slot is proved to leave the window in the state the corresponding
    function of module Wizard gives. */
module MainWindowModel {
  import StringReplace
  import opened Wizard

  /** The heap object behind `nss`, changed only through its setters. */
  class NetworkSettings {
    var dhcp: bool
    var wireless: bool
    var ip: string
    var mask: string
    var gw: string
    var dns1: string
    var dns2: string
    var ssid: string
    var keyType: int
    var keyValue: string

    function Value(): Settings
      reads this
    {
      Settings(dhcp, wireless, ip, mask, gw, dns1, dns2, ssid, keyType, keyValue)
    }

    constructor ()
      ensures Value() == DefaultSettings()
    {
      dhcp, wireless := false, false;
      ip, mask, gw, dns1, dns2 := "", "", "", "", "";
      ssid, keyType, keyValue := "", 0, "";
    }

    method SetDHCP(b: bool)
      modifies this
      ensures Value() == old(Value()).(dhcp := b)
    {
      dhcp := b;
    }

    method SetWireless(b: bool)
      modifies this
      ensures Value() == old(Value()).(wireless := b)
    {
      wireless := b;
    }

    method SetIP(s: string)
      modifies this
      ensures Value() == old(Value()).(ip := s)
    {
      ip := s;
    }

    method SetMask(s: string)
      modifies this
      ensures Value() == old(Value()).(mask := s)
    {
      mask := s;
    }

    method SetGW(s: string)
      modifies this
      ensures Value() == old(Value()).(gw := s)
    {
      gw := s;
    }

    method SetDNS1(s: string)
      modifies this
      ensures Value() == old(Value()).(dns1 := s)
    {
      dns1 := s;
    }

    method SetDNS2(s: string)
      modifies this
      ensures Value() == old(Value()).(dns2 := s)
    {
      dns2 := s;
    }

    method SetWirelessSSID(s: string)
      modifies this
      ensures Value() == old(Value()).(ssid := s)
    {
      ssid := s;
    }

    method SetWirelessKeyType(k: int)
      modifies this
      ensures Value() == old(Value()).(keyType := k)
    {
      keyType := k;
    }

    method SetWirelessKeyValue(v: string)
      modifies this
      ensures Value() == old(Value()).(keyValue := v)
    {
      keyValue := v;
    }
  }

  class MainWindow {
    /** The pages showing. */
    var visible: set<Page>
    /** The pages whose global pointer has been assigned. */
    var built: set<Page>
    var mirrorUrl: string
    var language: string
    var device: Option<Device>
    var image: string
    var isOnline: Option<bool>
    var installType: Option<int>
    /** The flag the network page was constructed with. */
    var networkPageFlag: bool
    var nss: NetworkSettings?
    /** The disk chosen on the disk page (`nd`). */
    var disk: Option<Disk>
    /** The URL the download page was constructed with. */
    var downloadUrl: string
    /** The locales for which a translation load was attempted, in order. */
    var translations: seq<string>
    var translatorInstalled: bool

    /** The window's state as a value. */
    function State(): WindowState
      reads this, nss
    {
      WindowState(visible, built, mirrorUrl, language, device, image, isOnline, installType,
                  networkPageFlag, if nss == null then None else Some(nss.Value()), disk,
                  downloadUrl, translations, translatorInstalled)
    }

    /** The constructor: a translation attempted for the system locale, the spinner
        showing, the default mirror set, the update notice built and hidden. The
        mirror request it sends is answered by ReplyFinished. */
    constructor (systemLocale: string, translationLoads: bool)
      ensures State() == Init(systemLocale, translationLoads)
    {
      visible, built := {}, {};
      language, device, image, isOnline, installType := "", None, "", None, None;
      networkPageFlag, nss, disk, downloadUrl := false, null, None, "";
      translations, translatorInstalled := [], false;
      new;
      Translate(systemLocale, translationLoads);
      visible := {Spinner};
      mirrorUrl := DefaultMirror;
      built := {Spinner, Update};
    }

    method RotateWidget(oldPage: Page, newPage: Page)
      modifies this`visible
      ensures visible == Rotate(old(visible), oldPage, newPage)
    {
      visible := visible - {oldPage};
      visible := visible + {newPage};
    }

    /** translate(locale); `loads` is what loading the locale's translation file
        gives. */
    method Translate(locale: string, loads: bool)
      modifies this`translations, this`translatorInstalled
      ensures State() == Wizard.Translate(old(State()), locale, loads)
    {
      translations := translations + [locale];
      if loads {
        translatorInstalled := true;
      }
    }

    method ReplyFinished(redirectTarget: string)
      requires Spinner in visible
      modifies this
      ensures State() == Wizard.ReplyFinished(old(State()), redirectTarget)
    {
      mirrorUrl := redirectTarget;
      built := built + {Lang};
      RotateWidget(Spinner, Lang);
    }

    method DismissUpdate()
      requires Update in visible && Lang in built
      modifies this
      ensures State() == Wizard.DismissUpdate(old(State()))
    {
      RotateWidget(Update, Lang);
    }

    /** The update check may answer at any time after the language page is built;
        the notice then replaces the language page, whether or not it shows. */
    method ShowUpdate()
      requires Lang in built
      modifies this
      ensures State() == Wizard.ShowUpdate(old(State()))
    {
      RotateWidget(Lang, Update);
    }

    /** `translationLoads` is what loading the language's translation file gives;
        it matters only when a load is attempted. */
    method SetLanguage(language: string, device: Device, translationLoads: bool)
      requires Lang in visible
      modifies this
      ensures State() == Wizard.SetLanguage(old(State()), language, device, translationLoads)
    {
      this.language := language;
      this.device := Some(device);
      if language != EnglishLabel {
        Translate(language, translationLoads);
      } else {
        translatorInstalled := false;
      }
      built := built + {Version};
      RotateWidget(Lang, Version);
    }

    method SetVersion(isOnline: bool, image: string)
      requires Version in visible
      modifies this
      ensures State() == Wizard.SetVersion(old(State()), isOnline, image)
    {
      var url := image;
      if isOnline {
        url := StringReplace.ReplaceAll(url, DefaultMirrorPrefix, mirrorUrl);
        this.isOnline := Some(true);
      } else {
        this.isOnline := Some(false);
      }
      this.image := url;
      built := built + {Preseed};
      RotateWidget(Version, Preseed);
    }

    method SetPreseed(installType: int)
      requires Preseed in visible && device.Some?
      modifies this
      ensures State() == Wizard.SetPreseed(old(State()), installType)
    {
      this.installType := Some(installType);
      if device.value.allowsPreseedingNetwork {
        networkPageFlag := if installType == InstallNfs then false else true;
        built := built + {Network};
        RotateWidget(Preseed, Network);
      } else {
        built := built + {DiskSelect};
        RotateWidget(Preseed, DiskSelect);
      }
    }

    /** Three conditionals in sequence, as in the source; exactly one of them runs. */
    method SetNetworkInitial(useWireless: bool, advanced: bool)
      requires Network in visible
      modifies this
      ensures State() == Wizard.SetNetworkInitial(old(State()), useWireless, advanced)
      ensures fresh(nss)
    {
      var s := new NetworkSettings();
      nss := s;
      if advanced {
        s.SetDHCP(false);
        if !useWireless {
          s.SetWireless(false);
        } else {
          s.SetWireless(true);
        }
        built := built + {Advanced};
        RotateWidget(Network, Advanced);
      }
      if !advanced && useWireless {
        s.SetDHCP(true);
        s.SetWireless(true);
        built := built + {WiFi};
        RotateWidget(Network, WiFi);
      }
      if !advanced && !useWireless {
        s.SetDHCP(true);
        s.SetWireless(false);
        built := built + {DiskSelect};
        RotateWidget(Network, DiskSelect);
      }
    }

    method SetNetworkAdvanced(ip: string, mask: string, gw: string, dns1: string, dns2: string)
      requires Advanced in visible && nss != null
      modifies this, nss
      ensures nss == old(nss)
      ensures State() == Wizard.SetNetworkAdvanced(old(State()), ip, mask, gw, dns1, dns2)
    {
      nss.SetIP(ip);
      nss.SetMask(mask);
      nss.SetGW(gw);
      nss.SetDNS1(dns1);
      nss.SetDNS2(dns2);
      if nss.wireless {
        built := built + {WiFi};
        RotateWidget(Advanced, WiFi);
      } else {
        built := built + {DiskSelect};
        RotateWidget(Advanced, DiskSelect);
      }
    }

    method SetWiFiConfiguration(ssid: string, keyType: int, keyValue: string)
      requires WiFi in visible && nss != null
      modifies this, nss
      ensures nss == old(nss)
      ensures State() == Wizard.SetWiFiConfiguration(old(State()), ssid, keyType, keyValue)
    {
      nss.SetWirelessSSID(ssid);
      nss.SetWirelessKeyType(keyType);
      // `! keyType == none`: the negation applies to the key type alone.
      var negated := if nss.keyType == 0 then 1 else 0;
      if negated == WirelessEncryptionNone {
        nss.SetWirelessKeyValue(keyValue);
      }
      built := built + {DiskSelect};
      RotateWidget(WiFi, DiskSelect);
    }

    method SelectNixDevice(disk: Disk)
      requires DiskSelect in visible
      modifies this
      ensures State() == Wizard.SelectNixDevice(old(State()), disk)
    {
      this.disk := Some(disk);
      built := built + {License};
      RotateWidget(DiskSelect, License);
    }

    method AcceptLicense()
      requires License in visible && isOnline.Some?
      modifies this
      ensures State() == Wizard.AcceptLicense(old(State()))
    {
      if isOnline.value {
        downloadUrl := image;
      } else {
        downloadUrl := "";
      }
      built := built + {Download};
      RotateWidget(License, Download);
    }
  }
}
