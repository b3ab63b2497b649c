/** The S-box of AES and its inverse: the bytes of the tables Te4 and Td4, four to a line. */
module AesSbox {
  import opened AesField
  import opened AesCipher

  /** The substitution. */
  function S(x: U8): U8 {
    if x < 0x04 then (if x & 2 == 0 then (if x & 1 == 0 then 0x63 else 0x7c) else if x & 1 == 0 then 0x77 else 0x7b) else
    if x < 0x08 then (if x & 2 == 0 then (if x & 1 == 0 then 0xf2 else 0x6b) else if x & 1 == 0 then 0x6f else 0xc5) else
    if x < 0x0c then (if x & 2 == 0 then (if x & 1 == 0 then 0x30 else 0x01) else if x & 1 == 0 then 0x67 else 0x2b) else
    if x < 0x10 then (if x & 2 == 0 then (if x & 1 == 0 then 0xfe else 0xd7) else if x & 1 == 0 then 0xab else 0x76) else
    if x < 0x14 then (if x & 2 == 0 then (if x & 1 == 0 then 0xca else 0x82) else if x & 1 == 0 then 0xc9 else 0x7d) else
    if x < 0x18 then (if x & 2 == 0 then (if x & 1 == 0 then 0xfa else 0x59) else if x & 1 == 0 then 0x47 else 0xf0) else
    if x < 0x1c then (if x & 2 == 0 then (if x & 1 == 0 then 0xad else 0xd4) else if x & 1 == 0 then 0xa2 else 0xaf) else
    if x < 0x20 then (if x & 2 == 0 then (if x & 1 == 0 then 0x9c else 0xa4) else if x & 1 == 0 then 0x72 else 0xc0) else
    if x < 0x24 then (if x & 2 == 0 then (if x & 1 == 0 then 0xb7 else 0xfd) else if x & 1 == 0 then 0x93 else 0x26) else
    if x < 0x28 then (if x & 2 == 0 then (if x & 1 == 0 then 0x36 else 0x3f) else if x & 1 == 0 then 0xf7 else 0xcc) else
    if x < 0x2c then (if x & 2 == 0 then (if x & 1 == 0 then 0x34 else 0xa5) else if x & 1 == 0 then 0xe5 else 0xf1) else
    if x < 0x30 then (if x & 2 == 0 then (if x & 1 == 0 then 0x71 else 0xd8) else if x & 1 == 0 then 0x31 else 0x15) else
    if x < 0x34 then (if x & 2 == 0 then (if x & 1 == 0 then 0x04 else 0xc7) else if x & 1 == 0 then 0x23 else 0xc3) else
    if x < 0x38 then (if x & 2 == 0 then (if x & 1 == 0 then 0x18 else 0x96) else if x & 1 == 0 then 0x05 else 0x9a) else
    if x < 0x3c then (if x & 2 == 0 then (if x & 1 == 0 then 0x07 else 0x12) else if x & 1 == 0 then 0x80 else 0xe2) else
    if x < 0x40 then (if x & 2 == 0 then (if x & 1 == 0 then 0xeb else 0x27) else if x & 1 == 0 then 0xb2 else 0x75) else
    if x < 0x44 then (if x & 2 == 0 then (if x & 1 == 0 then 0x09 else 0x83) else if x & 1 == 0 then 0x2c else 0x1a) else
    if x < 0x48 then (if x & 2 == 0 then (if x & 1 == 0 then 0x1b else 0x6e) else if x & 1 == 0 then 0x5a else 0xa0) else
    if x < 0x4c then (if x & 2 == 0 then (if x & 1 == 0 then 0x52 else 0x3b) else if x & 1 == 0 then 0xd6 else 0xb3) else
    if x < 0x50 then (if x & 2 == 0 then (if x & 1 == 0 then 0x29 else 0xe3) else if x & 1 == 0 then 0x2f else 0x84) else
    if x < 0x54 then (if x & 2 == 0 then (if x & 1 == 0 then 0x53 else 0xd1) else if x & 1 == 0 then 0x00 else 0xed) else
    if x < 0x58 then (if x & 2 == 0 then (if x & 1 == 0 then 0x20 else 0xfc) else if x & 1 == 0 then 0xb1 else 0x5b) else
    if x < 0x5c then (if x & 2 == 0 then (if x & 1 == 0 then 0x6a else 0xcb) else if x & 1 == 0 then 0xbe else 0x39) else
    if x < 0x60 then (if x & 2 == 0 then (if x & 1 == 0 then 0x4a else 0x4c) else if x & 1 == 0 then 0x58 else 0xcf) else
    if x < 0x64 then (if x & 2 == 0 then (if x & 1 == 0 then 0xd0 else 0xef) else if x & 1 == 0 then 0xaa else 0xfb) else
    if x < 0x68 then (if x & 2 == 0 then (if x & 1 == 0 then 0x43 else 0x4d) else if x & 1 == 0 then 0x33 else 0x85) else
    if x < 0x6c then (if x & 2 == 0 then (if x & 1 == 0 then 0x45 else 0xf9) else if x & 1 == 0 then 0x02 else 0x7f) else
    if x < 0x70 then (if x & 2 == 0 then (if x & 1 == 0 then 0x50 else 0x3c) else if x & 1 == 0 then 0x9f else 0xa8) else
    if x < 0x74 then (if x & 2 == 0 then (if x & 1 == 0 then 0x51 else 0xa3) else if x & 1 == 0 then 0x40 else 0x8f) else
    if x < 0x78 then (if x & 2 == 0 then (if x & 1 == 0 then 0x92 else 0x9d) else if x & 1 == 0 then 0x38 else 0xf5) else
    if x < 0x7c then (if x & 2 == 0 then (if x & 1 == 0 then 0xbc else 0xb6) else if x & 1 == 0 then 0xda else 0x21) else
    if x < 0x80 then (if x & 2 == 0 then (if x & 1 == 0 then 0x10 else 0xff) else if x & 1 == 0 then 0xf3 else 0xd2) else
    if x < 0x84 then (if x & 2 == 0 then (if x & 1 == 0 then 0xcd else 0x0c) else if x & 1 == 0 then 0x13 else 0xec) else
    if x < 0x88 then (if x & 2 == 0 then (if x & 1 == 0 then 0x5f else 0x97) else if x & 1 == 0 then 0x44 else 0x17) else
    if x < 0x8c then (if x & 2 == 0 then (if x & 1 == 0 then 0xc4 else 0xa7) else if x & 1 == 0 then 0x7e else 0x3d) else
    if x < 0x90 then (if x & 2 == 0 then (if x & 1 == 0 then 0x64 else 0x5d) else if x & 1 == 0 then 0x19 else 0x73) else
    if x < 0x94 then (if x & 2 == 0 then (if x & 1 == 0 then 0x60 else 0x81) else if x & 1 == 0 then 0x4f else 0xdc) else
    if x < 0x98 then (if x & 2 == 0 then (if x & 1 == 0 then 0x22 else 0x2a) else if x & 1 == 0 then 0x90 else 0x88) else
    if x < 0x9c then (if x & 2 == 0 then (if x & 1 == 0 then 0x46 else 0xee) else if x & 1 == 0 then 0xb8 else 0x14) else
    if x < 0xa0 then (if x & 2 == 0 then (if x & 1 == 0 then 0xde else 0x5e) else if x & 1 == 0 then 0x0b else 0xdb) else
    if x < 0xa4 then (if x & 2 == 0 then (if x & 1 == 0 then 0xe0 else 0x32) else if x & 1 == 0 then 0x3a else 0x0a) else
    if x < 0xa8 then (if x & 2 == 0 then (if x & 1 == 0 then 0x49 else 0x06) else if x & 1 == 0 then 0x24 else 0x5c) else
    if x < 0xac then (if x & 2 == 0 then (if x & 1 == 0 then 0xc2 else 0xd3) else if x & 1 == 0 then 0xac else 0x62) else
    if x < 0xb0 then (if x & 2 == 0 then (if x & 1 == 0 then 0x91 else 0x95) else if x & 1 == 0 then 0xe4 else 0x79) else
    if x < 0xb4 then (if x & 2 == 0 then (if x & 1 == 0 then 0xe7 else 0xc8) else if x & 1 == 0 then 0x37 else 0x6d) else
    if x < 0xb8 then (if x & 2 == 0 then (if x & 1 == 0 then 0x8d else 0xd5) else if x & 1 == 0 then 0x4e else 0xa9) else
    if x < 0xbc then (if x & 2 == 0 then (if x & 1 == 0 then 0x6c else 0x56) else if x & 1 == 0 then 0xf4 else 0xea) else
    if x < 0xc0 then (if x & 2 == 0 then (if x & 1 == 0 then 0x65 else 0x7a) else if x & 1 == 0 then 0xae else 0x08) else
    if x < 0xc4 then (if x & 2 == 0 then (if x & 1 == 0 then 0xba else 0x78) else if x & 1 == 0 then 0x25 else 0x2e) else
    if x < 0xc8 then (if x & 2 == 0 then (if x & 1 == 0 then 0x1c else 0xa6) else if x & 1 == 0 then 0xb4 else 0xc6) else
    if x < 0xcc then (if x & 2 == 0 then (if x & 1 == 0 then 0xe8 else 0xdd) else if x & 1 == 0 then 0x74 else 0x1f) else
    if x < 0xd0 then (if x & 2 == 0 then (if x & 1 == 0 then 0x4b else 0xbd) else if x & 1 == 0 then 0x8b else 0x8a) else
    if x < 0xd4 then (if x & 2 == 0 then (if x & 1 == 0 then 0x70 else 0x3e) else if x & 1 == 0 then 0xb5 else 0x66) else
    if x < 0xd8 then (if x & 2 == 0 then (if x & 1 == 0 then 0x48 else 0x03) else if x & 1 == 0 then 0xf6 else 0x0e) else
    if x < 0xdc then (if x & 2 == 0 then (if x & 1 == 0 then 0x61 else 0x35) else if x & 1 == 0 then 0x57 else 0xb9) else
    if x < 0xe0 then (if x & 2 == 0 then (if x & 1 == 0 then 0x86 else 0xc1) else if x & 1 == 0 then 0x1d else 0x9e) else
    if x < 0xe4 then (if x & 2 == 0 then (if x & 1 == 0 then 0xe1 else 0xf8) else if x & 1 == 0 then 0x98 else 0x11) else
    if x < 0xe8 then (if x & 2 == 0 then (if x & 1 == 0 then 0x69 else 0xd9) else if x & 1 == 0 then 0x8e else 0x94) else
    if x < 0xec then (if x & 2 == 0 then (if x & 1 == 0 then 0x9b else 0x1e) else if x & 1 == 0 then 0x87 else 0xe9) else
    if x < 0xf0 then (if x & 2 == 0 then (if x & 1 == 0 then 0xce else 0x55) else if x & 1 == 0 then 0x28 else 0xdf) else
    if x < 0xf4 then (if x & 2 == 0 then (if x & 1 == 0 then 0x8c else 0xa1) else if x & 1 == 0 then 0x89 else 0x0d) else
    if x < 0xf8 then (if x & 2 == 0 then (if x & 1 == 0 then 0xbf else 0xe6) else if x & 1 == 0 then 0x42 else 0x68) else
    if x < 0xfc then (if x & 2 == 0 then (if x & 1 == 0 then 0x41 else 0x99) else if x & 1 == 0 then 0x2d else 0x0f) else
    if x & 2 == 0 then (if x & 1 == 0 then 0xb0 else 0x54) else if x & 1 == 0 then 0xbb else 0x16
  }

  /** The inverse substitution. */
  function Si(x: U8): U8 {
    if x < 0x04 then (if x & 2 == 0 then (if x & 1 == 0 then 0x52 else 0x09) else if x & 1 == 0 then 0x6a else 0xd5) else
    if x < 0x08 then (if x & 2 == 0 then (if x & 1 == 0 then 0x30 else 0x36) else if x & 1 == 0 then 0xa5 else 0x38) else
    if x < 0x0c then (if x & 2 == 0 then (if x & 1 == 0 then 0xbf else 0x40) else if x & 1 == 0 then 0xa3 else 0x9e) else
    if x < 0x10 then (if x & 2 == 0 then (if x & 1 == 0 then 0x81 else 0xf3) else if x & 1 == 0 then 0xd7 else 0xfb) else
    if x < 0x14 then (if x & 2 == 0 then (if x & 1 == 0 then 0x7c else 0xe3) else if x & 1 == 0 then 0x39 else 0x82) else
    if x < 0x18 then (if x & 2 == 0 then (if x & 1 == 0 then 0x9b else 0x2f) else if x & 1 == 0 then 0xff else 0x87) else
    if x < 0x1c then (if x & 2 == 0 then (if x & 1 == 0 then 0x34 else 0x8e) else if x & 1 == 0 then 0x43 else 0x44) else
    if x < 0x20 then (if x & 2 == 0 then (if x & 1 == 0 then 0xc4 else 0xde) else if x & 1 == 0 then 0xe9 else 0xcb) else
    if x < 0x24 then (if x & 2 == 0 then (if x & 1 == 0 then 0x54 else 0x7b) else if x & 1 == 0 then 0x94 else 0x32) else
    if x < 0x28 then (if x & 2 == 0 then (if x & 1 == 0 then 0xa6 else 0xc2) else if x & 1 == 0 then 0x23 else 0x3d) else
    if x < 0x2c then (if x & 2 == 0 then (if x & 1 == 0 then 0xee else 0x4c) else if x & 1 == 0 then 0x95 else 0x0b) else
    if x < 0x30 then (if x & 2 == 0 then (if x & 1 == 0 then 0x42 else 0xfa) else if x & 1 == 0 then 0xc3 else 0x4e) else
    if x < 0x34 then (if x & 2 == 0 then (if x & 1 == 0 then 0x08 else 0x2e) else if x & 1 == 0 then 0xa1 else 0x66) else
    if x < 0x38 then (if x & 2 == 0 then (if x & 1 == 0 then 0x28 else 0xd9) else if x & 1 == 0 then 0x24 else 0xb2) else
    if x < 0x3c then (if x & 2 == 0 then (if x & 1 == 0 then 0x76 else 0x5b) else if x & 1 == 0 then 0xa2 else 0x49) else
    if x < 0x40 then (if x & 2 == 0 then (if x & 1 == 0 then 0x6d else 0x8b) else if x & 1 == 0 then 0xd1 else 0x25) else
    if x < 0x44 then (if x & 2 == 0 then (if x & 1 == 0 then 0x72 else 0xf8) else if x & 1 == 0 then 0xf6 else 0x64) else
    if x < 0x48 then (if x & 2 == 0 then (if x & 1 == 0 then 0x86 else 0x68) else if x & 1 == 0 then 0x98 else 0x16) else
    if x < 0x4c then (if x & 2 == 0 then (if x & 1 == 0 then 0xd4 else 0xa4) else if x & 1 == 0 then 0x5c else 0xcc) else
    if x < 0x50 then (if x & 2 == 0 then (if x & 1 == 0 then 0x5d else 0x65) else if x & 1 == 0 then 0xb6 else 0x92) else
    if x < 0x54 then (if x & 2 == 0 then (if x & 1 == 0 then 0x6c else 0x70) else if x & 1 == 0 then 0x48 else 0x50) else
    if x < 0x58 then (if x & 2 == 0 then (if x & 1 == 0 then 0xfd else 0xed) else if x & 1 == 0 then 0xb9 else 0xda) else
    if x < 0x5c then (if x & 2 == 0 then (if x & 1 == 0 then 0x5e else 0x15) else if x & 1 == 0 then 0x46 else 0x57) else
    if x < 0x60 then (if x & 2 == 0 then (if x & 1 == 0 then 0xa7 else 0x8d) else if x & 1 == 0 then 0x9d else 0x84) else
    if x < 0x64 then (if x & 2 == 0 then (if x & 1 == 0 then 0x90 else 0xd8) else if x & 1 == 0 then 0xab else 0x00) else
    if x < 0x68 then (if x & 2 == 0 then (if x & 1 == 0 then 0x8c else 0xbc) else if x & 1 == 0 then 0xd3 else 0x0a) else
    if x < 0x6c then (if x & 2 == 0 then (if x & 1 == 0 then 0xf7 else 0xe4) else if x & 1 == 0 then 0x58 else 0x05) else
    if x < 0x70 then (if x & 2 == 0 then (if x & 1 == 0 then 0xb8 else 0xb3) else if x & 1 == 0 then 0x45 else 0x06) else
    if x < 0x74 then (if x & 2 == 0 then (if x & 1 == 0 then 0xd0 else 0x2c) else if x & 1 == 0 then 0x1e else 0x8f) else
    if x < 0x78 then (if x & 2 == 0 then (if x & 1 == 0 then 0xca else 0x3f) else if x & 1 == 0 then 0x0f else 0x02) else
    if x < 0x7c then (if x & 2 == 0 then (if x & 1 == 0 then 0xc1 else 0xaf) else if x & 1 == 0 then 0xbd else 0x03) else
    if x < 0x80 then (if x & 2 == 0 then (if x & 1 == 0 then 0x01 else 0x13) else if x & 1 == 0 then 0x8a else 0x6b) else
    if x < 0x84 then (if x & 2 == 0 then (if x & 1 == 0 then 0x3a else 0x91) else if x & 1 == 0 then 0x11 else 0x41) else
    if x < 0x88 then (if x & 2 == 0 then (if x & 1 == 0 then 0x4f else 0x67) else if x & 1 == 0 then 0xdc else 0xea) else
    if x < 0x8c then (if x & 2 == 0 then (if x & 1 == 0 then 0x97 else 0xf2) else if x & 1 == 0 then 0xcf else 0xce) else
    if x < 0x90 then (if x & 2 == 0 then (if x & 1 == 0 then 0xf0 else 0xb4) else if x & 1 == 0 then 0xe6 else 0x73) else
    if x < 0x94 then (if x & 2 == 0 then (if x & 1 == 0 then 0x96 else 0xac) else if x & 1 == 0 then 0x74 else 0x22) else
    if x < 0x98 then (if x & 2 == 0 then (if x & 1 == 0 then 0xe7 else 0xad) else if x & 1 == 0 then 0x35 else 0x85) else
    if x < 0x9c then (if x & 2 == 0 then (if x & 1 == 0 then 0xe2 else 0xf9) else if x & 1 == 0 then 0x37 else 0xe8) else
    if x < 0xa0 then (if x & 2 == 0 then (if x & 1 == 0 then 0x1c else 0x75) else if x & 1 == 0 then 0xdf else 0x6e) else
    if x < 0xa4 then (if x & 2 == 0 then (if x & 1 == 0 then 0x47 else 0xf1) else if x & 1 == 0 then 0x1a else 0x71) else
    if x < 0xa8 then (if x & 2 == 0 then (if x & 1 == 0 then 0x1d else 0x29) else if x & 1 == 0 then 0xc5 else 0x89) else
    if x < 0xac then (if x & 2 == 0 then (if x & 1 == 0 then 0x6f else 0xb7) else if x & 1 == 0 then 0x62 else 0x0e) else
    if x < 0xb0 then (if x & 2 == 0 then (if x & 1 == 0 then 0xaa else 0x18) else if x & 1 == 0 then 0xbe else 0x1b) else
    if x < 0xb4 then (if x & 2 == 0 then (if x & 1 == 0 then 0xfc else 0x56) else if x & 1 == 0 then 0x3e else 0x4b) else
    if x < 0xb8 then (if x & 2 == 0 then (if x & 1 == 0 then 0xc6 else 0xd2) else if x & 1 == 0 then 0x79 else 0x20) else
    if x < 0xbc then (if x & 2 == 0 then (if x & 1 == 0 then 0x9a else 0xdb) else if x & 1 == 0 then 0xc0 else 0xfe) else
    if x < 0xc0 then (if x & 2 == 0 then (if x & 1 == 0 then 0x78 else 0xcd) else if x & 1 == 0 then 0x5a else 0xf4) else
    if x < 0xc4 then (if x & 2 == 0 then (if x & 1 == 0 then 0x1f else 0xdd) else if x & 1 == 0 then 0xa8 else 0x33) else
    if x < 0xc8 then (if x & 2 == 0 then (if x & 1 == 0 then 0x88 else 0x07) else if x & 1 == 0 then 0xc7 else 0x31) else
    if x < 0xcc then (if x & 2 == 0 then (if x & 1 == 0 then 0xb1 else 0x12) else if x & 1 == 0 then 0x10 else 0x59) else
    if x < 0xd0 then (if x & 2 == 0 then (if x & 1 == 0 then 0x27 else 0x80) else if x & 1 == 0 then 0xec else 0x5f) else
    if x < 0xd4 then (if x & 2 == 0 then (if x & 1 == 0 then 0x60 else 0x51) else if x & 1 == 0 then 0x7f else 0xa9) else
    if x < 0xd8 then (if x & 2 == 0 then (if x & 1 == 0 then 0x19 else 0xb5) else if x & 1 == 0 then 0x4a else 0x0d) else
    if x < 0xdc then (if x & 2 == 0 then (if x & 1 == 0 then 0x2d else 0xe5) else if x & 1 == 0 then 0x7a else 0x9f) else
    if x < 0xe0 then (if x & 2 == 0 then (if x & 1 == 0 then 0x93 else 0xc9) else if x & 1 == 0 then 0x9c else 0xef) else
    if x < 0xe4 then (if x & 2 == 0 then (if x & 1 == 0 then 0xa0 else 0xe0) else if x & 1 == 0 then 0x3b else 0x4d) else
    if x < 0xe8 then (if x & 2 == 0 then (if x & 1 == 0 then 0xae else 0x2a) else if x & 1 == 0 then 0xf5 else 0xb0) else
    if x < 0xec then (if x & 2 == 0 then (if x & 1 == 0 then 0xc8 else 0xeb) else if x & 1 == 0 then 0xbb else 0x3c) else
    if x < 0xf0 then (if x & 2 == 0 then (if x & 1 == 0 then 0x83 else 0x53) else if x & 1 == 0 then 0x99 else 0x61) else
    if x < 0xf4 then (if x & 2 == 0 then (if x & 1 == 0 then 0x17 else 0x2b) else if x & 1 == 0 then 0x04 else 0x7e) else
    if x < 0xf8 then (if x & 2 == 0 then (if x & 1 == 0 then 0xba else 0x77) else if x & 1 == 0 then 0xd6 else 0x26) else
    if x < 0xfc then (if x & 2 == 0 then (if x & 1 == 0 then 0xe1 else 0x69) else if x & 1 == 0 then 0x14 else 0x63) else
    if x & 2 == 0 then (if x & 1 == 0 then 0x55 else 0x21) else if x & 1 == 0 then 0x0c else 0x7d
  }

  const AES_BOX: Box := Box(S, Si)

  lemma {:induction false} SiUndoesS(x: U8)
    ensures Si(S(x)) == x
  {
  }

  lemma {:induction false} AesBoxInverts()
    ensures Inverts(AES_BOX)
  {
    hide S, Si;
    forall x: U8
      ensures Si(S(x)) == x
    {
      SiUndoesS(x);
    }
  }

  // ----- The definition in section 5.1.1 of FIPS 197 -----

  /** Multiplication in GF(2^8): the bits of y from the top, doubling and reducing in between. */
  function Mul(x: U8, y: U8): U8 {
    var a7 := if y & 0x80 == 0x80 then x else 0;
    var a6 := (a7 << 1) ^ (if a7 & 0x80 == 0x80 then 0x1b else 0) ^ (if y & 0x40 == 0x40 then x else 0);
    var a5 := (a6 << 1) ^ (if a6 & 0x80 == 0x80 then 0x1b else 0) ^ (if y & 0x20 == 0x20 then x else 0);
    var a4 := (a5 << 1) ^ (if a5 & 0x80 == 0x80 then 0x1b else 0) ^ (if y & 0x10 == 0x10 then x else 0);
    var a3 := (a4 << 1) ^ (if a4 & 0x80 == 0x80 then 0x1b else 0) ^ (if y & 0x08 == 0x08 then x else 0);
    var a2 := (a3 << 1) ^ (if a3 & 0x80 == 0x80 then 0x1b else 0) ^ (if y & 0x04 == 0x04 then x else 0);
    var a1 := (a2 << 1) ^ (if a2 & 0x80 == 0x80 then 0x1b else 0) ^ (if y & 0x02 == 0x02 then x else 0);
    (a1 << 1) ^ (if a1 & 0x80 == 0x80 then 0x1b else 0) ^ (if y & 0x01 == 0x01 then x else 0)
  }

  /** The affine transformation over GF(2). */
  function Affine(b: U8): U8 { b ^ b.RotateLeft(1) ^ b.RotateLeft(2) ^ b.RotateLeft(3) ^ b.RotateLeft(4) ^ 0x63 }

  function InvAffine(b: U8): U8 { b.RotateLeft(1) ^ b.RotateLeft(3) ^ b.RotateLeft(6) ^ 0x05 }

  lemma {:induction false} AffineUndone(b: U8)
    ensures Affine(InvAffine(b)) == b
  {
  }

  lemma {:induction false} FirstQuarter(x: U8)
    requires x & 0xc0 == 0x00 && x != 0
    ensures Mul(x, InvAffine(S(x))) == 1
  {
  }

  lemma {:induction false} SecondQuarter(x: U8)
    requires x & 0xc0 == 0x40
    ensures Mul(x, InvAffine(S(x))) == 1
  {
  }

  lemma {:induction false} ThirdQuarter(x: U8)
    requires x & 0xc0 == 0x80
    ensures Mul(x, InvAffine(S(x))) == 1
  {
  }

  lemma {:induction false} LastQuarter(x: U8)
    requires x & 0xc0 == 0xc0
    ensures Mul(x, InvAffine(S(x))) == 1
  {
  }

  /** The table is the affine image of the multiplicative inverse, zero being its own. */
  lemma {:induction false} SubstitutionIsAffineInverse(x: U8)
    ensures var inverse := InvAffine(S(x));
            S(x) == Affine(inverse) && (if x == 0 then inverse == 0 else Mul(x, inverse) == 1)
  {
    ZeroInverse();
    hide S, Mul, Affine, InvAffine;
    AffineUndone(S(x));
    if x != 0 {
      WhichQuarter(x);
      if x & 0xc0 == 0x00 {
        FirstQuarter(x);
      } else if x & 0xc0 == 0x40 {
        SecondQuarter(x);
      } else if x & 0xc0 == 0x80 {
        ThirdQuarter(x);
      } else {
        LastQuarter(x);
      }
    }
  }

  lemma {:induction false} ZeroInverse()
    ensures InvAffine(S(0)) == 0
  {
  }

  lemma {:induction false} WhichQuarter(x: U8)
    ensures x & 0xc0 == 0x00 || x & 0xc0 == 0x40 || x & 0xc0 == 0x80 || x & 0xc0 == 0xc0
  {
  }
}
