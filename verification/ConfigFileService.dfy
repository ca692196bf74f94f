/** app/services/config_file_service.py: the compound file operations, step by step. */
module ConfigFileService {
  import opened Text
  import opened PathNames
  import opened Files
  import opened Sites

  lemma NamesApart(path: string, stamp: string)
    ensures path != Bak(path)
    ensures FileOf(path, RotatedBackup(stamp)) != path && FileOf(path, RotatedBackup(stamp)) != Bak(path)
    ensures FileOf(path, SetAside(stamp)) != path
    ensures |stamp| == 15 ==> FileOf(path, SetAside(stamp)) != Bak(path)
  {
    assert |FileOf(path, RotatedBackup(stamp))| > |Bak(path)| > |path|;
    assert |FileOf(path, SetAside(stamp))| == |path| + 1 + |stamp|;
  }

  /** A backup leaves the live file where it is. */
  lemma LiveStays(fs: FileMap, path: string, stamp: string)
    requires path in fs
    ensures path in BackedUp(fs, path, stamp)
  {
    hide Bak, FileOf;
    NamesApart(path, stamp);
  }

  /** Where a relative path ends up; every operation below goes through it. */
  function PathOf(configPath: string): Result<string> { NormalizeConfigPath(configPath, false) }

  method ExistsByConfigPath(site: Site, host: string, configPath: string) returns (r: Result<bool>)
    requires host in site.disks
    ensures r.Ok? ==> PathOf(configPath).Ok? && r.value == (PathOf(configPath).value in site.disks[host])
    ensures r.Err? && PathOf(configPath).Ok? ==> r.error == FileOperation && !site.reliable
  {
    hide PathOf;
    var path :- PathOf(configPath);
    r := site.PathExists(host, path);
  }

  method ReadByConfigPath(site: Site, host: string, configPath: string) returns (r: Result<string>)
    requires host in site.disks
    ensures r.Ok? ==>
              PathOf(configPath).Ok? && PathOf(configPath).value in site.disks[host]
              && r.value == site.disks[host][PathOf(configPath).value]
    ensures r.Err? && PathOf(configPath).Ok? ==>
              (r.error == FileOperation && !site.reliable) || PathOf(configPath).value !in site.disks[host]
  {
    hide PathOf;
    var path :- PathOf(configPath);
    var found := site.PathExists(host, path);
    if found.Err? { return Err(found.error); }
    if !found.value { return Err(ConfigNotFound); }
    r := site.ReadText(host, path);
  }

  /** None when the file does not exist. */
  method ReadOptional(site: Site, host: string, configPath: string, allowBackups: bool) returns (r: Result<Option<string>>)
    requires host in site.disks
    ensures r.Ok? ==>
              NormalizeConfigPath(configPath, allowBackups).Ok?
              && var path := NormalizeConfigPath(configPath, allowBackups).value;
                 r.value == if path in site.disks[host] then Some(site.disks[host][path]) else None
    ensures r.Err? && site.reliable ==> NormalizeConfigPath(configPath, allowBackups).Err?
  {
    hide NormalizeConfigPath;
    var path :- NormalizeConfigPath(configPath, allowBackups);
    var found := site.PathExists(host, path);
    if found.Err? { return Err(found.error); }
    if !found.value { return Ok(None); }
    var text := site.ReadText(host, path);
    r := if text.Ok? then Ok(Some(text.value)) else Err(text.error);
  }

  method WriteByConfigPath(site: Site, host: string, configPath: string, content: string) returns (r: Result<string>)
    requires host in site.disks
    modifies site`disks
    ensures r.Err? ==> site.disks == old(site.disks)
    ensures r.Ok? ==>
              PathOf(configPath) == r
              && site.disks == old(site.disks)[host := old(site.disks)[host][r.value := content]]
    ensures r.Err? && site.reliable ==> PathOf(configPath).Err?
  {
    hide PathOf;
    var path :- PathOf(configPath);
    var ok := site.WriteText(host, path, content);
    r := if ok then Ok(path) else Err(FileOperation);
  }

  /** `backup_config_by_config_path`. The files after a stopped or completed operation on a path the normaliser accepts; a rejected path
      changes nothing. */
  method BackupByConfigPath(site: Site, host: string, configPath: string, stamp: string) returns (r: Result<string>)
    requires host in site.disks
    modifies site`disks
    ensures host in site.disks && site.disks == old(site.disks)[host := site.disks[host]]
    ensures if PathOf(configPath).Ok? then BackupCut(old(site.disks)[host], site.disks[host], PathOf(configPath).value, stamp)
            else site.disks == old(site.disks)
    ensures r.Ok? ==>
              PathOf(configPath) == r && r.value in old(site.disks)[host]
              && site.disks[host] == BackedUp(old(site.disks)[host], r.value, stamp)
    ensures r.Err? && site.reliable && PathOf(configPath).Ok? ==> PathOf(configPath).value !in old(site.disks)[host]
  {
    hide PathOf, Bak, FileOf;
    ghost var fs := site.disks[host];
    assert site.disks == site.disks[host := fs];
    var path :- PathOf(configPath);
    NamesApart(path, stamp);
    var found := site.PathExists(host, path);
    if found.Err? { return Err(found.error); }
    if !found.value { return Err(ConfigNotFound); }
    var hasBackup := site.PathExists(host, Bak(path));
    if hasBackup.Err? { return Err(FileOperation); }
    if hasBackup.value {
      var moved := site.MoveFile(host, Bak(path), FileOf(path, RotatedBackup(stamp)));
      if !moved { return Err(FileOperation); }
    }
    assert site.disks[host] == Rotated(fs, path, stamp);
    var copied := site.CopyFile(host, path, Bak(path));
    r := if copied then Ok(path) else Err(FileOperation);
  }

  /** `restore_config_by_config_path` */
  method RestoreByConfigPath(site: Site, host: string, configPath: string, stamp: string) returns (r: Result<string>)
    requires host in site.disks && |stamp| == 15
    modifies site`disks
    ensures host in site.disks && site.disks == old(site.disks)[host := site.disks[host]]
    ensures if PathOf(configPath).Ok? then RestoreCut(old(site.disks)[host], site.disks[host], PathOf(configPath).value, stamp)
            else site.disks == old(site.disks)
    ensures r.Ok? ==>
              PathOf(configPath) == r && Bak(r.value) in old(site.disks)[host]
              && site.disks[host] == Restored(old(site.disks)[host], r.value, stamp)
    ensures r.Err? && site.reliable && PathOf(configPath).Ok? ==> Bak(PathOf(configPath).value) !in old(site.disks)[host]
  {
    hide PathOf, Bak, FileOf;
    ghost var fs := site.disks[host];
    assert site.disks == site.disks[host := fs];
    var path :- PathOf(configPath);
    NamesApart(path, stamp);
    var found := site.PathExists(host, Bak(path));
    if found.Err? { return Err(found.error); }
    if !found.value { return Err(ConfigNotFound); }
    var hasCurrent := site.PathExists(host, path);
    if hasCurrent.Err? { return Err(FileOperation); }
    if hasCurrent.value {
      var moved := site.MoveFile(host, path, FileOf(path, SetAside(stamp)));
      if !moved { return Err(FileOperation); }
    }
    assert site.disks[host] == Aside(fs, path, stamp);
    var copied := site.CopyFile(host, Bak(path), path);
    r := if copied then Ok(path) else Err(FileOperation);
  }

  method DeleteByConfigPath(site: Site, host: string, configPath: string) returns (r: Result<string>)
    requires host in site.disks
    modifies site`disks
    ensures r.Err? ==> site.disks == old(site.disks)
    ensures r.Ok? ==>
              PathOf(configPath) == r && r.value in old(site.disks)[host]
              && site.disks == old(site.disks)[host := old(site.disks)[host] - {r.value}]
    ensures r.Err? && site.reliable && PathOf(configPath).Ok? ==> PathOf(configPath).value !in old(site.disks)[host]
  {
    hide PathOf;
    var path :- PathOf(configPath);
    var found := site.PathExists(host, path);
    if found.Err? { return Err(found.error); }
    if !found.value { return Err(ConfigNotFound); }
    var ok := site.RemoveFile(host, path, false);
    r := if ok then Ok(path) else Err(FileOperation);
  }

  /** Deleting one controlled file; the result says whether there was one. */
  method RemoveOptional(site: Site, host: string, configPath: string, allowBackups: bool) returns (r: Result<bool>)
    requires host in site.disks
    modifies site`disks
    ensures r.Err? ==> site.disks == old(site.disks)
    ensures r.Ok? ==>
              NormalizeConfigPath(configPath, allowBackups).Ok?
              && var path := NormalizeConfigPath(configPath, allowBackups).value;
                 r.value == (path in old(site.disks)[host])
                 && site.disks == old(site.disks)[host := old(site.disks)[host] - {path}]
    ensures r.Err? && site.reliable ==> NormalizeConfigPath(configPath, allowBackups).Err?
  {
    hide NormalizeConfigPath;
    var path :- NormalizeConfigPath(configPath, allowBackups);
    var found := site.PathExists(host, path);
    if found.Err? { return Err(found.error); }
    if !found.value {
      assert site.disks[host] - {path} == site.disks[host];
      return Ok(false);
    }
    var ok := site.RemoveFile(host, path, true);
    r := if ok then Ok(true) else Err(FileOperation);
  }
}
