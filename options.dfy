/** The command-line flags of cs once `flag.Parse` has run (cs/cs.go:342-378).
    Parsing itself, the usage text and -V are not modelled. */
module Options {

  datatype Flags = Flags(
    lcmd: bool,        // -cmd    run a local command per host
    cname: bool,       // -cname
    copy: string,      // -c      file to copy to the hosts
    dd: bool,          // -dd     dmidecode
    disku: string,     // -du     path for du
    download: string,  // -d      file to download from the hosts
    errorsOnly: bool,  // -e      show failed hosts only
    file: string,      // -f      script file
    hostsfile: string, // -h      hosts file
    id: string,        // -i      identity file
    login: string,     // -l      login name
    mx: bool,          // -mx
    netcat: bool,      // -nc
    nmap: bool,        // -nmap
    ns: bool,          // -ns
    one: bool,         // -1      one line per host
    out: string,       // -o      log file
    path: string,      // -p      local or remote path for scp
    png: bool,         // -ping
    port: string,      // -P
    quiet: bool,       // -q
    recursive: bool,   // -r
    soa: bool,         // -soa
    sorted: bool,      // -s
    timeout: string,   // -to
    top1: bool,        // -top
    tr: bool,          // -tr
    tri: bool,         // -tri
    tty: bool,         // -t
    uname: bool,       // -uname
    up: bool,          // -u
    verbose1: bool,    // -v
    verbose2: bool,    // -vv
    verbose3: bool,    // -vvv
    vm: bool           // -vm
  )
}
